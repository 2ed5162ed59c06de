/** jsonObjectEnd against the JSON grammar of sections 2 to 7 of RFC 8259. */
module JsonScan {
  import opened Text

  /*** The scanner ***/

  datatype Mode = Outside | InString | Escaped

  datatype State = State(depth: int, mode: Mode)

  function Step(st: State, c: char): State {
    match st.mode
    case Escaped => st.(mode := InString)
    case InString => st.(mode := if c == '\\' then Escaped else if c == '"' then Outside else InString)
    case Outside =>
      if c == '"' then st.(mode := InString)
      else if c == '{' then st.(depth := st.depth + 1)
      else if c == '}' then st.(depth := st.depth - 1)
      else st
  }

  /** Reading `c` brings the depth back to zero: the scan stops here. */
  predicate Ends(st: State, c: char) {
    st.mode == Outside && c == '}' && st.depth == 1
  }

  /** Offset at which a scan of `s` starting in `st` stops. */
  function Scan(s: string, st: State): (r: Option<nat>)
  {
    if s == "" then None
    else if Ends(st, s[0]) then Some(0)
    else Later(1, Scan(s[1..], Step(st, s[0])))
  }

  function Later(n: nat, r: Option<nat>): Option<nat> {
    match r case None => None case Some(k) => Some(k + n)
  }

  const START := State(0, Outside)

  /** jsonObjectEnd. */
  method JsonObjectEnd(s: string, start: nat) returns (end: nat, ok: bool)
    ensures ok <==> start < |s| && s[start] == '{' && Scan(s[start..], START).Some?
    ensures ok ==> Scan(s[start..], START) == Some(end - start) && start <= end < |s|
  {
    if start >= |s| || s[start] != '{' {
      return 0, false;
    }
    var depth, inString, escape := 0, false, false;
    var i := start;
    while i < |s|
      invariant start <= i <= |s| && (escape ==> inString)
      invariant Scan(s[start..], START) == Later(i - start, Scan(s[i..], State(depth, ModeOf(inString, escape))))
    {
      var c := s[i];
      ScanStep(s, i, State(depth, ModeOf(inString, escape)));
      i := i + 1;
      if inString {
        if escape {
          escape := false;
        } else if c == '\\' {
          escape := true;
        } else if c == '"' {
          inString := false;
        }
      } else if c == '"' {
        inString := true;
      } else if c == '{' {
        depth := depth + 1;
      } else if c == '}' {
        depth := depth - 1;
        if depth == 0 {
          return i - 1, true;
        }
      }
    }
    return 0, false;
  }

  function ModeOf(inString: bool, escape: bool): Mode {
    if escape then Escaped else if inString then InString else Outside
  }

  lemma {:induction false} ScanStep(s: string, i: nat, st: State)
    requires i < |s|
    ensures Scan(s[i..], st) == if Ends(st, s[i]) then Some(0) else Later(1, Scan(s[i + 1..], Step(st, s[i])))
  {
    assert s[i..][1..] == s[i + 1..];
  }

  /*** Values and every way to write them down ***/

  predicate IsWs(ws: string) {
    forall i :: 0 <= i < |ws| ==> ws[i] == ' ' || ws[i] == '\t' || ws[i] == '\n' || ws[i] == '\r'
  }

  datatype StringChar = Plain(c: char) | Escape(c: char) | UnicodeEscape(hex: string)
  {
    predicate Valid() {
      match this
      case Plain(c) => c != '"' && c != '\\' && c >= ' '
      case Escape(c) => c in "\"\\/bfnrt"
      case UnicodeEscape(hex) => |hex| == 4 && forall i :: 0 <= i < 4 ==> IsHex(hex[i])
    }
    function Print(): string {
      match this
      case Plain(c) => [c]
      case Escape(c) => ['\\', c]
      case UnicodeEscape(hex) => ['\\', 'u'] + hex
    }
  }

  predicate IsHex(c: char) {
    '0' <= c <= '9' || 'A' <= c <= 'F' || 'a' <= c <= 'f'
  }

  predicate IsDigits(s: string) {
    s != "" && forall i :: 0 <= i < |s| ==> '0' <= s[i] <= '9'
  }

  /** number = [ minus ] int [ frac ] [ exp ] */
  datatype Number = Number(minus: bool, whole: string, frac: Option<string>, exp: Option<Exponent>)
  {
    predicate Valid() {
      && IsDigits(whole) && (whole[0] == '0' ==> |whole| == 1)
      && (frac.Some? ==> IsDigits(frac.value))
      && (exp.Some? ==> exp.value.Valid())
    }
    function Print(): string {
      (if minus then "-" else "") + whole
      + (if frac.Some? then "." + frac.value else "")
      + (if exp.Some? then exp.value.Print() else "")
    }
  }

  datatype Exponent = Exponent(e: char, sign: string, digits: string)
  {
    predicate Valid() {
      (e == 'e' || e == 'E') && (sign == "" || sign == "-" || sign == "+") && IsDigits(digits)
    }
    function Print(): string {
      [e] + sign + digits
    }
  }

  datatype Value =
    | Null
    | Bool(b: bool)
    | Num(n: Number)
    | Str(chars: seq<StringChar>)
    | Arr(inside: string, elements: Elements)
    | Obj(inside: string, members: Members)

  /** Elements of an array with the white space around each. */
  datatype Elements = NoElements | Element(before: string, value: Value, after: string, rest: Elements)

  /** Members of an object with the white space around name, colon and value. */
  datatype Members =
    | NoMembers
    | Member(before: string, name: seq<StringChar>, colonBefore: string, colonAfter: string, value: Value,
      after: string, rest: Members)

  predicate ValidChars(cs: seq<StringChar>) {
    forall i :: 0 <= i < |cs| ==> cs[i].Valid()
  }

  predicate ValidValue(v: Value) {
    match v
    case Null => true
    case Bool(_) => true
    case Num(n) => n.Valid()
    case Str(cs) => ValidChars(cs)
    case Arr(ws, es) => IsWs(ws) && ValidElements(es)
    case Obj(ws, ms) => IsWs(ws) && ValidMembers(ms)
  }

  predicate ValidElements(es: Elements) {
    match es
    case NoElements => true
    case Element(b, v, a, rest) => IsWs(b) && ValidValue(v) && IsWs(a) && ValidElements(rest)
  }

  predicate ValidMembers(ms: Members) {
    match ms
    case NoMembers => true
    case Member(b, n, cb, ca, v, a, rest) =>
      IsWs(b) && ValidChars(n) && IsWs(cb) && IsWs(ca) && ValidValue(v) && IsWs(a) && ValidMembers(rest)
  }

  function PrintChars(cs: seq<StringChar>): string {
    if cs == [] then "" else cs[0].Print() + PrintChars(cs[1..])
  }

  function PrintString(cs: seq<StringChar>): string {
    ['"'] + PrintChars(cs) + ['"']
  }

  /** `inside` is the white space of an empty array or object. */
  function Print(v: Value): string {
    match v
    case Null => "null"
    case Bool(b) => if b then "true" else "false"
    case Num(n) => n.Print()
    case Str(cs) => PrintString(cs)
    case Arr(ws, es) => ['['] + ws + PrintElements(es) + [']']
    case Obj(ws, ms) => ['{'] + ws + PrintMembers(ms) + ['}']
  }

  function PrintElements(es: Elements): string {
    match es
    case NoElements => ""
    case Element(b, v, a, rest) => b + Print(v) + a + (if rest.NoElements? then "" else [',']) + PrintElements(rest)
  }

  function PrintMembers(ms: Members): string {
    match ms
    case NoMembers => ""
    case Member(b, n, cb, ca, v, a, rest) =>
      b + PrintString(n) + cb + [':'] + ca + Print(v) + a + (if rest.NoMembers? then "" else [',']) + PrintMembers(rest)
  }

  /*** What the scanner does with printed text ***/

  /** State after `t` when the scan does not stop inside it. */
  function Run(t: string, st: State): Option<State> {
    if t == "" then Some(st)
    else if Ends(st, t[0]) then None
    else Run(t[1..], Step(st, t[0]))
  }

  lemma {:induction false} ScanAfterRun(t: string, rest: string, st: State)
    requires Run(t, st).Some?
    ensures Scan(t + rest, st) == Later(|t|, Scan(rest, Run(t, st).value))
  {
    if t == "" {
      assert t + rest == rest;
    } else {
      assert (t + rest)[1..] == t[1..] + rest;
      ScanAfterRun(t[1..], rest, Step(st, t[0]));
    }
  }

  lemma {:induction false} RunAppend(a: string, b: string, st: State)
    requires Run(a, st).Some?
    ensures Run(a + b, st) == Run(b, Run(a, st).value)
  {
    if a == "" {
      assert a + b == b;
    } else {
      assert (a + b)[1..] == a[1..] + b;
      RunAppend(a[1..], b, Step(st, a[0]));
    }
  }

  /** `t` takes the scanner from `st` to `st'` without stopping it. */
  predicate Takes(t: string, st: State, st': State) {
    Run(t, st) == Some(st')
  }

  lemma {:induction false} TakesAppend(a: string, b: string, st: State, st': State, st'': State, ab: string)
    requires Takes(a, st, st') && Takes(b, st', st'') && ab == a + b
    ensures Takes(ab, st, st'')
  {
    RunAppend(a, b, st);
  }

  /** Characters the scanner ignores outside strings. */
  predicate Quiet(t: string) {
    forall i :: 0 <= i < |t| ==> t[i] != '"' && t[i] != '{' && t[i] != '}'
  }

  lemma {:induction false} TakesQuiet(t: string, d: int)
    requires Quiet(t)
    ensures Takes(t, State(d, Outside), State(d, Outside))
  {
    if t == "" {
    } else {
      TakesQuiet(t[1..], d);
    }
  }

  lemma {:induction false} TakesOne(c: char, st: State)
    requires !Ends(st, c)
    ensures Takes([c], st, Step(st, c))
  {
    assert [c][1..] == "";
  }

  lemma {:induction false} NumberIsQuiet(n: Number)
    requires n.Valid()
    ensures Quiet(n.Print())
  {
    var s1 := (if n.minus then "-" else "") + n.whole;
    var s2 := if n.frac.Some? then "." + n.frac.value else "";
    var s3 := if n.exp.Some? then n.exp.value.Print() else "";
    assert Quiet(s1) && Quiet(s2) && Quiet(s3);
  }

  lemma {:induction false} TakesPlainInString(t: string, d: int)
    requires forall i :: 0 <= i < |t| ==> t[i] != '"' && t[i] != '\\'
    ensures Takes(t, State(d, InString), State(d, InString))
  {
    if t == "" {
    } else {
      TakesPlainInString(t[1..], d);
    }
  }

  lemma {:induction false} TakesEscape(c: char, hex: string, d: int)
    requires forall i :: 0 <= i < |hex| ==> hex[i] != '"' && hex[i] != '\\'
    ensures Takes(['\\', c] + hex, State(d, InString), State(d, InString))
  {
    TakesOne('\\', State(d, InString));
    TakesOne(c, State(d, Escaped));
    TakesAppend(['\\'], [c], State(d, InString), State(d, Escaped), State(d, InString), ['\\', c]);
    TakesPlainInString(hex, d);
    TakesAppend(['\\', c], hex, State(d, InString), State(d, InString), State(d, InString), ['\\', c] + hex);
  }

  lemma {:induction false} TakesChar(sc: StringChar, d: int)
    requires sc.Valid()
    ensures Takes(sc.Print(), State(d, InString), State(d, InString))
  {
    match sc
    case Plain(c) => TakesPlainInString([c], d);
    case Escape(c) =>
      TakesEscape(c, "", d);
      assert ['\\', c] + "" == ['\\', c];
    case UnicodeEscape(hex) => TakesEscape('u', hex, d);
  }

  lemma {:induction false} TakesChars(cs: seq<StringChar>, d: int)
    requires ValidChars(cs)
    ensures Takes(PrintChars(cs), State(d, InString), State(d, InString))
  {
    if cs == [] {
    } else {
      TakesChar(cs[0], d);
      TakesChars(cs[1..], d);
      TakesAppend(cs[0].Print(), PrintChars(cs[1..]), State(d, InString), State(d, InString), State(d, InString),
        PrintChars(cs));
    }
  }

  /** A string literal, whatever quotes, backslashes and braces it holds, leaves the state alone. */
  lemma {:induction false} TakesString(cs: seq<StringChar>, d: int)
    requires ValidChars(cs)
    ensures Takes(PrintString(cs), State(d, Outside), State(d, Outside))
  {
    var out, ins := State(d, Outside), State(d, InString);
    TakesOne('"', out);
    TakesChars(cs, d);
    TakesAppend(['"'], PrintChars(cs), out, ins, ins, ['"'] + PrintChars(cs));
    TakesOne('"', ins);
    TakesAppend(['"'] + PrintChars(cs), ['"'], out, ins, out, PrintString(cs));
  }

  /** Three pieces that leave the state alone, one after the other. */
  lemma {:induction false} TakesThree(a: string, b: string, c: string, st: State, abc: string)
    requires Takes(a, st, st) && Takes(b, st, st) && Takes(c, st, st) && abc == a + b + c
    ensures Takes(abc, st, st)
  {
    TakesAppend(a, b, st, st, st, a + b);
    TakesAppend(a + b, c, st, st, st, abc);
  }

  /** A value nested inside an object leaves the depth as it found it. */
  lemma {:induction false} TakesValue(v: Value, d: int)
    requires ValidValue(v) && d >= 1
    ensures Takes(Print(v), State(d, Outside), State(d, Outside))
    decreases v
  {
    match v
    case Null => TakesQuiet("null", d);
    case Bool(b) => TakesQuiet(Print(v), d);
    case Num(n) =>
      NumberIsQuiet(n);
      TakesQuiet(Print(v), d);
    case Str(cs) => TakesString(cs, d);
    case Arr(ws, es) =>
      var st := State(d, Outside);
      TakesQuiet(['['] + ws, d);
      TakesElements(es, d);
      TakesQuiet([']'], d);
      TakesThree(['['] + ws, PrintElements(es), [']'], st, Print(v));
    case Obj(ws, ms) =>
      TakesOpenObject(ws, ms, d);
      TakesOne('}', State(d + 1, Outside));
      TakesAppend(['{'] + ws + PrintMembers(ms), ['}'], State(d, Outside), State(d + 1, Outside), State(d, Outside),
        Print(v));
  }

  lemma {:induction false} TakesOpenObject(ws: string, ms: Members, d: int)
    requires IsWs(ws) && ValidMembers(ms) && d >= 0
    ensures Takes(['{'] + ws + PrintMembers(ms), State(d, Outside), State(d + 1, Outside))
    decreases ms, 1
  {
    var before, after := State(d, Outside), State(d + 1, Outside);
    TakesOne('{', before);
    TakesQuiet(ws, d + 1);
    TakesAppend(['{'], ws, before, after, after, ['{'] + ws);
    TakesMembers(ms, d + 1);
    TakesAppend(['{'] + ws, PrintMembers(ms), before, after, after, ['{'] + ws + PrintMembers(ms));
  }

  lemma {:induction false} TakesElements(es: Elements, d: int)
    requires ValidElements(es) && d >= 1
    ensures Takes(PrintElements(es), State(d, Outside), State(d, Outside))
    decreases es
  {
    match es
    case NoElements =>
    case Element(b, v, a, rest) =>
      var st := State(d, Outside);
      TakesQuiet(b, d);
      TakesValue(v, d);
      var tail := a + if rest.NoElements? then "" else [','];
      TakesQuiet(tail, d);
      TakesThree(b, Print(v), tail, st, b + Print(v) + tail);
      TakesElements(rest, d);
      assert b + Print(v) + a + (if rest.NoElements? then "" else [',']) == b + Print(v) + tail;
      TakesAppend(b + Print(v) + tail, PrintElements(rest), st, st, st, PrintElements(es));
  }

  lemma {:induction false} TakesMembers(ms: Members, d: int)
    requires ValidMembers(ms) && d >= 1
    ensures Takes(PrintMembers(ms), State(d, Outside), State(d, Outside))
    decreases ms, 0
  {
    match ms
    case NoMembers =>
    case Member(b, n, cb, ca, v, a, rest) =>
      var st := State(d, Outside);
      var colon, tail := cb + [':'] + ca, a + if rest.NoMembers? then "" else [','];
      TakesQuiet(b, d);
      TakesString(n, d);
      TakesQuiet(colon, d);
      TakesThree(b, PrintString(n), colon, st, b + PrintString(n) + colon);
      TakesValue(v, d);
      TakesQuiet(tail, d);
      TakesThree(b + PrintString(n) + colon, Print(v), tail, st, b + PrintString(n) + colon + Print(v) + tail);
      TakesMembers(rest, d);
      MemberPieces(b, PrintString(n), cb, ca, Print(v), a, if rest.NoMembers? then "" else [','], PrintMembers(rest));
      TakesAppend(b + PrintString(n) + colon + Print(v) + tail, PrintMembers(rest), st, st, st, PrintMembers(ms));
  }

  lemma {:induction false} MemberPieces(b: string, n: string, cb: string, ca: string, v: string, a: string,
                                        comma: string, rest: string)
    ensures b + n + cb + [':'] + ca + v + a + comma + rest == b + n + (cb + [':'] + ca) + v + (a + comma) + rest
  {
  }

  /*** Results ***/

  /** Whatever comes before and after it, the scan from the opening brace of a printed JSON object
      stops exactly at its matching closing brace. */
  lemma {:induction false} FindsMatchingBrace(before: string, o: Value, after: string, text: string)
    requires o.Obj? && ValidValue(o) && text == before + Print(o) + after
    ensures text[|before|] == '{' && text[|before|..] == Print(o) + after
    ensures Scan(text[|before|..], START) == Some(|Print(o)| - 1)
  {
    var open := ['{'] + o.inside + PrintMembers(o.members);
    TakesOpenObject(o.inside, o.members, 0);
    ScanAfterRun(open, ['}'] + after, START);
    assert Print(o) + after == open + (['}'] + after);
    assert text[|before|..] == Print(o) + after;
    assert (['}'] + after)[0] == '}';
  }

  /** An object cut off anywhere before its last character is never taken for a complete one. */
  lemma {:induction false} NeverEndsTruncated(o: Value, n: nat)
    requires o.Obj? && ValidValue(o) && n < |Print(o)|
    ensures Scan(Print(o)[..n], START) == None
  {
    var cut := Print(o)[..n];
    FindsMatchingBrace("", o, "", Print(o));
    assert Print(o)[0..] == Print(o);
    assert Print(o) == cut + Print(o)[n..];
    ScanOfPrefix(cut, Print(o)[n..], START);
  }

  /** Where a scan stops does not depend on the text behind the stop. */
  lemma {:induction false} ScanOfPrefix(t: string, rest: string, st: State)
    ensures Scan(t, st).Some? ==> Scan(t, st).value < |t| && Scan(t + rest, st) == Scan(t, st)
  {
    if t == "" {
    } else {
      assert (t + rest)[1..] == t[1..] + rest;
      ScanOfPrefix(t[1..], rest, Step(st, t[0]));
    }
  }

  /*** extractOrchestratedJSONObjects ***/

  /** The objects found from position `i` on; `accepts` stands for decoding with a non-empty outcome. */
  function Candidates(s: string, i: nat, accepts: string -> bool): seq<string>
    decreases |s| - i
  {
    if i >= |s| then []
    else CandidateAt(s, i, accepts) + Candidates(s, i + 1, accepts)
  }

  function CandidateAt(s: string, i: nat, accepts: string -> bool): seq<string>
    requires i < |s|
  {
    if s[i] != '{' then []
    else
      match Scan(s[i..], START)
      case None => []
      case Some(k) =>
        var raw := TrimSpace(if i + k + 1 <= |s| then s[i..i + k + 1] else "");
        if accepts(raw) then [raw] else []
  }

  method ExtractObjects(response: string, accepts: string -> bool) returns (objs: seq<string>)
    ensures objs == Candidates(response, 0, accepts)
  {
    objs := [];
    var i := 0;
    while i < |response|
      invariant 0 <= i <= |response|
      invariant Candidates(response, 0, accepts) == objs + Candidates(response, i, accepts)
    {
      var found := ExtractAt(response, i, accepts);
      AppendAssociative(objs, found, Candidates(response, i + 1, accepts));
      objs := objs + found;
      i := i + 1;
    }
  }

  lemma {:induction false} AppendAssociative<T>(a: seq<T>, b: seq<T>, c: seq<T>)
    ensures a + (b + c) == (a + b) + c
  {
  }

  method ExtractAt(response: string, i: nat, accepts: string -> bool) returns (found: seq<string>)
    requires i < |response|
    ensures found == CandidateAt(response, i, accepts)
  {
    found := [];
    if response[i] != '{' {
      return;
    }
    var end, ok := JsonObjectEnd(response, i);
    if ok {
      var raw := TrimSpace(response[i..end + 1]);
      if accepts(raw) {
        found := [raw];
      }
    }
  }

  lemma {:induction false} CandidatesHold(s: string, i: nat, j: nat, accepts: string -> bool, c: string)
    requires i <= j < |s| && c in CandidateAt(s, j, accepts)
    ensures c in Candidates(s, i, accepts)
    decreases j - i
  {
    if i >= j {
    } else {
      CandidatesHold(s, i + 1, j, accepts, c);
    }
  }

  /** Every acceptable object written anywhere in a reply is among the candidates, verbatim. */
  lemma {:induction false} EmbeddedObjectIsExtracted(before: string, o: Value, after: string, text: string,
                                                     accepts: string -> bool)
    requires o.Obj? && ValidValue(o) && text == before + Print(o) + after && accepts(Print(o))
    ensures Print(o) in Candidates(text, 0, accepts)
  {
    FindsMatchingBrace(before, o, after, text);
    var i, k := |before|, |Print(o)| - 1;
    assert text[i..i + k + 1] == Print(o);
    assert Print(o)[0] == '{' && Print(o)[|Print(o)| - 1] == '}';
    TrimmedUnchanged(Print(o), IsSpace);
    CandidatesHold(text, 0, i, accepts, Print(o));
  }
}
