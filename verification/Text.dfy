/** The string operations of Go's `strings` package that the agent relies on.
    A Go string is modelled as `seq<char>`; case mapping covers ASCII only. */
module Text {

  datatype Option<+T> = None | Some(value: T)

  /*** Lines: strings.Split and strings.Join with a one-character separator ***/

  function Split(s: string, sep: char): (parts: seq<string>)
    ensures |parts| >= 1
  {
    if s == "" then [""]
    else
      var rest := Split(s[1..], sep);
      if s[0] == sep then [""] + rest else [[s[0]] + rest[0]] + rest[1..]
  }

  function Join(parts: seq<string>, sep: char): string {
    if |parts| == 0 then ""
    else if |parts| == 1 then parts[0]
    else parts[0] + [sep] + Join(parts[1..], sep)
  }

  lemma {:induction false} SplitHasNoSep(s: string, sep: char)
    ensures forall p :: p in Split(s, sep) ==> sep !in p
  {
    if s == "" {
    } else {
      SplitHasNoSep(s[1..], sep);
      var rest := Split(s[1..], sep);
      assert rest[0] in rest;
      assert forall p :: p in rest[1..] ==> p in rest;
    }
  }

  lemma {:induction false} JoinSplit(s: string, sep: char)
    ensures Join(Split(s, sep), sep) == s
  {
    if s == "" {
    } else {
      JoinSplit(s[1..], sep);
      var rest := Split(s[1..], sep);
      if s[0] == sep {
        assert ([""] + rest)[1..] == rest;
      } else {
        assert ([[s[0]] + rest[0]] + rest[1..])[1..] == rest[1..];
        JoinPushFront(s[0], rest, sep);
      }
      assert s == [s[0]] + s[1..];
    }
  }

  lemma {:induction false} JoinPushFront(c: char, parts: seq<string>, sep: char)
    requires |parts| >= 1
    ensures Join([[c] + parts[0]] + parts[1..], sep) == [c] + Join(parts, sep)
  {
    assert ([[c] + parts[0]] + parts[1..])[1..] == parts[1..];
    if |parts| > 1 {
      assert ([c] + parts[0]) + [sep] + Join(parts[1..], sep) == [c] + (parts[0] + [sep] + Join(parts[1..], sep));
    }
  }

  /** Splitting a separator-free part glued in front of a separator peels that part off. */
  lemma {:induction false} SplitPeel(p: string, rest: string, sep: char)
    requires sep !in p
    ensures Split(p + [sep] + rest, sep) == [p] + Split(rest, sep)
    ensures Split(p, sep) == [p]
  {
    if p == "" {
      assert (p + [sep] + rest)[1..] == rest;
    } else {
      assert (p + [sep] + rest)[1..] == p[1..] + [sep] + rest;
      assert sep !in p[1..];
      SplitPeel(p[1..], rest, sep);
      assert [p[0]] + p[1..] == p;
    }
  }

  lemma {:induction false} SplitJoin(parts: seq<string>, sep: char)
    requires |parts| >= 1
    requires forall p :: p in parts ==> sep !in p
    ensures Split(Join(parts, sep), sep) == parts
  {
    assert parts[0] in parts;
    if |parts| == 1 {
      SplitPeel(parts[0], "", sep);
    } else {
      SplitJoin(parts[1..], sep);
      SplitPeel(parts[0], Join(parts[1..], sep), sep);
      assert parts == [parts[0]] + parts[1..];
    }
  }

  lemma {:induction false} JoinAppend(a: seq<string>, b: seq<string>, sep: char)
    requires |a| >= 1 && |b| >= 1
    ensures Join(a + b, sep) == Join(a, sep) + [sep] + Join(b, sep)
  {
    if |a| == 1 {
      assert (a + b)[1..] == b;
    } else {
      assert (a + b)[1..] == a[1..] + b;
      JoinAppend(a[1..], b, sep);
    }
  }

  /*** Substrings ***/

  predicate HasPrefix(s: string, p: string) {
    p <= s
  }

  predicate HasSuffix(s: string, p: string) {
    |p| <= |s| && s[|s| - |p|..] == p
  }

  predicate OccursAt(s: string, p: string, i: nat) {
    i <= |s| && p <= s[i..]
  }

  /** strings.Contains */
  predicate Contains(s: string, p: string) {
    exists i :: 0 <= i <= |s| && OccursAt(s, p, i)
  }

  lemma {:induction false} ContainsByParts(a: string, p: string, b: string)
    ensures Contains(a + p + b, p)
  {
    assert OccursAt(a + p + b, p, |a|);
  }

  lemma {:induction false} OccursInside(t: string, mid: string, p: string, j: nat)
    requires mid <= t && j <= |mid| && p <= mid[j..]
    ensures p <= t[j..]
  {
    assert t == mid + t[|mid|..];
    assert t[j..] == mid[j..] + t[|mid|..];
  }

  lemma {:induction false} ContainsTransitive(s: string, mid: string, p: string)
    requires Contains(s, mid) && Contains(mid, p)
    ensures Contains(s, p)
  {
    var i :| 0 <= i <= |s| && OccursAt(s, mid, i);
    var j :| 0 <= j <= |mid| && OccursAt(mid, p, j);
    OccursInside(s[i..], mid, p, j);
    assert s[i..][j..] == s[i + j..];
    assert OccursAt(s, p, i + j);
  }

  lemma {:induction false} JoinContainsPart(parts: seq<string>, k: nat, sep: char)
    requires k < |parts|
    ensures Contains(Join(parts, sep), parts[k])
  {
    var whole := Join(parts, sep);
    if k == 0 {
      if |parts| == 1 {
        assert OccursAt(whole, parts[0], 0);
      } else {
        assert whole == "" + parts[0] + ([sep] + Join(parts[1..], sep));
        ContainsByParts("", parts[0], [sep] + Join(parts[1..], sep));
      }
    } else {
      JoinContainsPart(parts[1..], k - 1, sep);
      assert whole == (parts[0] + [sep]) + Join(parts[1..], sep) + "";
      ContainsByParts(parts[0] + [sep], Join(parts[1..], sep), "");
      ContainsTransitive(whole, Join(parts[1..], sep), parts[k]);
    }
  }

  /** strings.ReplaceAll for a non-empty `from`. */
  function ReplaceAll(s: string, from: string, to: string): string
    requires from != ""
  {
    if s == "" then ""
    else if HasPrefix(s, from) then to + ReplaceAll(s[|from|..], from, to)
    else [s[0]] + ReplaceAll(s[1..], from, to)
  }

  lemma {:induction false} OccursInTail(s: string, p: string, i: nat)
    requires 1 <= i <= |s|
    ensures OccursAt(s, p, i) <==> OccursAt(s[1..], p, i - 1)
  {
    assert s[1..][i - 1..] == s[i..];
  }

  lemma {:induction false} ContainsTail(s: string, p: string)
    requires s != ""
    ensures Contains(s, p) <==> HasPrefix(s, p) || Contains(s[1..], p)
  {
    assert s[0..] == s;
    if Contains(s, p) {
      var i :| 0 <= i <= |s| && OccursAt(s, p, i);
      if i > 0 {
        OccursInTail(s, p, i);
      }
    }
    if HasPrefix(s, p) {
      assert OccursAt(s, p, 0);
    }
    if Contains(s[1..], p) {
      var i :| 0 <= i <= |s[1..]| && OccursAt(s[1..], p, i);
      OccursInTail(s, p, i + 1);
    }
  }

  lemma {:induction false} ReplaceAllAbsent(s: string, from: string, to: string)
    requires from != "" && !Contains(s, from)
    ensures ReplaceAll(s, from, to) == s
  {
    if s == "" {
    } else {
      ContainsTail(s, from);
      ReplaceAllAbsent(s[1..], from, to);
      assert s == [s[0]] + s[1..];
    }
  }

  /** strings.Index */
  function First(s: string, p: string): Option<nat> {
    if HasPrefix(s, p) then Some(0)
    else if s == "" then None
    else match First(s[1..], p)
      case Some(k) => Some(k + 1)
      case None => None
  }

  lemma {:induction false} FirstNone(s: string, p: string)
    requires First(s, p).None?
    ensures forall j :: 0 <= j <= |s| ==> !OccursAt(s, p, j)
  {
    assert s[0..] == s;
    if s == "" {
    } else {
      FirstNone(s[1..], p);
      forall j | 1 <= j <= |s| ensures !OccursAt(s, p, j) {
        OccursInTail(s, p, j);
      }
    }
  }

  lemma {:induction false} FirstOccurs(s: string, p: string, k: nat)
    requires First(s, p) == Some(k)
    ensures k + |p| <= |s| && OccursAt(s, p, k)
  {
    if k == 0 {
      assert s[0..] == s;
    } else {
      FirstOccurs(s[1..], p, k - 1);
      OccursInTail(s, p, k);
    }
  }

  lemma {:induction false} NoneBeforeFirst(s: string, p: string, k: nat, j: nat)
    requires First(s, p) == Some(k) && j < k <= |s|
    ensures !OccursAt(s, p, j)
  {
    if j == 0 {
      assert s[0..] == s;
    } else {
      NoneBeforeFirst(s[1..], p, k - 1, j - 1);
      OccursInTail(s, p, j);
    }
  }

  lemma {:induction false} FirstSome(s: string, p: string, k: nat)
    requires First(s, p) == Some(k)
    ensures k + |p| <= |s| && OccursAt(s, p, k) && forall j :: 0 <= j < k ==> !OccursAt(s, p, j)
  {
    FirstOccurs(s, p, k);
    forall j | 0 <= j < k ensures !OccursAt(s, p, j) {
      NoneBeforeFirst(s, p, k, j);
    }
  }

  /*** Trimming ***/

  /** unicode.IsSpace */
  predicate IsSpace(c: char) {
    '\t' <= c <= '\r' || c == ' ' || c == '\U{85}' || c == '\U{A0}' || c == '\U{1680}' ||
    '\U{2000}' <= c <= '\U{200A}' || c == '\U{2028}' || c == '\U{2029}' || c == '\U{202F}' || c == '\U{205F}' ||
      c == '\U{3000}'
  }

  function TrimLeft(s: string, cut: char -> bool): string {
    if s != "" && cut(s[0]) then TrimLeft(s[1..], cut) else s
  }

  function TrimRight(s: string, cut: char -> bool): string {
    if s != "" && cut(s[|s| - 1]) then TrimRight(s[..|s| - 1], cut) else s
  }

  function Trim(s: string, cut: char -> bool): string {
    TrimRight(TrimLeft(s, cut), cut)
  }

  /** strings.TrimSpace */
  function TrimSpace(s: string): string {
    Trim(s, IsSpace)
  }

  predicate All(s: string, p: char -> bool) {
    forall i :: 0 <= i < |s| ==> p(s[i])
  }

  /** Nothing left to trim at either end. */
  predicate Trimmed(s: string, cut: char -> bool) {
    s != "" ==> !cut(s[0]) && !cut(s[|s| - 1])
  }

  lemma {:induction false} ConsAppend(s: string, a: string, t: string)
    requires s != "" && s[1..] == a + t
    ensures s == [s[0]] + a + t
  {
    assert s == [s[0]] + s[1..];
  }

  lemma {:induction false} TrimLeftParts(s: string, cut: char -> bool) returns (a: string)
    ensures s == a + TrimLeft(s, cut) && All(a, cut)
    ensures TrimLeft(s, cut) != "" ==> !cut(TrimLeft(s, cut)[0])
  {
    if s != "" && cut(s[0]) {
      var a' := TrimLeftParts(s[1..], cut);
      a := [s[0]] + a';
      ConsAppend(s, a', TrimLeft(s[1..], cut));
    } else {
      a := "";
    }
  }

  lemma {:induction false} TrimRightParts(s: string, cut: char -> bool) returns (b: string)
    ensures s == TrimRight(s, cut) + b && All(b, cut)
    ensures TrimRight(s, cut) != "" ==> !cut(TrimRight(s, cut)[|TrimRight(s, cut)| - 1])
  {
    if s != "" && cut(s[|s| - 1]) {
      var b' := TrimRightParts(s[..|s| - 1], cut);
      b := b' + [s[|s| - 1]];
      assert s == s[..|s| - 1] + [s[|s| - 1]];
    } else {
      b := "";
    }
  }

  /** `s` is its trimmed core between two runs of cut characters. */
  lemma {:induction false} TrimParts(s: string, cut: char -> bool) returns (a: string, b: string)
    ensures s == a + Trim(s, cut) + b && All(a, cut) && All(b, cut)
    ensures Trimmed(Trim(s, cut), cut)
  {
    a := TrimLeftParts(s, cut);
    b := TrimRightParts(TrimLeft(s, cut), cut);
    assert Trim(s, cut) != "" ==> Trim(s, cut)[0] == TrimLeft(s, cut)[0];
  }

  lemma {:induction false} TrimLeftSkips(a: string, t: string, cut: char -> bool)
    requires All(a, cut)
    ensures TrimLeft(a + t, cut) == TrimLeft(t, cut)
  {
    if a == "" {
      assert a + t == t;
    } else {
      assert (a + t)[1..] == a[1..] + t;
      TrimLeftSkips(a[1..], t, cut);
    }
  }

  lemma {:induction false} TrimRightSkips(t: string, b: string, cut: char -> bool)
    requires All(b, cut)
    ensures TrimRight(t + b, cut) == TrimRight(t, cut)
  {
    if b == "" {
      assert t + b == t;
    } else {
      assert (t + b)[..|t + b| - 1] == t + b[..|b| - 1];
      TrimRightSkips(t, b[..|b| - 1], cut);
    }
  }

  /** The decomposition of TrimParts determines the trimmed core. */
  lemma {:induction false} TrimOf(a: string, t: string, b: string, cut: char -> bool)
    requires All(a, cut) && All(b, cut) && Trimmed(t, cut)
    ensures Trim(a + t + b, cut) == t
  {
    assert a + t + b == a + (t + b);
    TrimLeftSkips(a, t + b, cut);
    if t == "" {
      assert t + b == b + "";
      TrimLeftSkips(b, "", cut);
    } else {
      assert (t + b)[0] == t[0];
      TrimRightSkips(t, b, cut);
    }
  }

  lemma {:induction false} TrimIdempotent(s: string, cut: char -> bool)
    ensures Trim(Trim(s, cut), cut) == Trim(s, cut)
  {
    var a, b := TrimParts(s, cut);
    TrimOf("", Trim(s, cut), "", cut);
    assert "" + Trim(s, cut) + "" == Trim(s, cut);
  }

  lemma {:induction false} TrimmedUnchanged(s: string, cut: char -> bool)
    requires Trimmed(s, cut)
    ensures Trim(s, cut) == s
  {
    TrimOf("", s, "", cut);
    assert "" + s + "" == s;
  }

  /*** ASCII case mapping ***/

  function Upper(c: char): char {
    if 'a' <= c <= 'z' then (c as int - 32) as char else c
  }

  function Lower(c: char): char {
    if 'A' <= c <= 'Z' then (c as int + 32) as char else c
  }

  function ToUpper(s: string): (r: string)
    ensures |r| == |s|
  {
    seq(|s|, i requires 0 <= i < |s| => Upper(s[i]))
  }

  function ToLower(s: string): (r: string)
    ensures |r| == |s|
  {
    seq(|s|, i requires 0 <= i < |s| => Lower(s[i]))
  }

  /** strings.EqualFold */
  predicate EqualFold(s: string, t: string) {
    ToLower(s) == ToLower(t)
  }

  /*** Decimal numerals: strconv.Itoa on naturals ***/

  function Digit(d: nat): char
    requires d < 10
  {
    ('0' as int + d) as char
  }

  function Itoa(n: nat): (s: string)
    ensures s != "" && forall i :: 0 <= i < |s| ==> '0' <= s[i] <= '9'
  {
    if n < 10 then [Digit(n)] else Itoa(n / 10) + [Digit(n % 10)]
  }

  function Numeral(s: string): nat
    requires forall i :: 0 <= i < |s| ==> '0' <= s[i] <= '9'
  {
    if s == "" then 0 else Numeral(s[..|s| - 1]) * 10 + (s[|s| - 1] as int - '0' as int)
  }

  lemma {:induction false} NumeralItoa(n: nat)
    ensures Numeral(Itoa(n)) == n
  {
    if n < 10 {
      assert Itoa(n)[..0] == "";
    } else {
      NumeralItoa(n / 10);
      assert Itoa(n)[..|Itoa(n)| - 1] == Itoa(n / 10);
    }
  }

  lemma {:induction false} ItoaInjective(m: nat, n: nat)
    requires Itoa(m) == Itoa(n)
    ensures m == n
  {
    NumeralItoa(m);
    NumeralItoa(n);
  }
}
