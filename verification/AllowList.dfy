/** The proxy's allow-list of subcommands: printed from a map in any iteration order, and parsed back. */
module AllowList {
  import opened Text

  /** Command to subcommands. A nil map and an empty one are the same value here. */
  type Allowed = map<string, seq<string>>

  /*** parseAllowedSubcmds ***/

  datatype Entry = Entry(cmd: string, subs: seq<string>)

  lemma {:induction false} FirstChar(s: string, c: char)
    ensures First(s, [c]).None? <==> c !in s
    ensures First(s, [c]).Some? ==>
      First(s, [c]).value < |s| && s[First(s, [c]).value] == c && c !in s[..First(s, [c]).value]
  {
    if s == "" {
    } else {
      assert HasPrefix(s, [c]) <==> s[0] == c by {
        if s[0] == c {
          assert s[..1] == [c];
        }
      }
      assert s == [s[0]] + s[1..];
      if s[0] != c {
        FirstChar(s[1..], c);
        if First(s, [c]).Some? {
          var k := First(s, [c]).value;
          assert s[..k] == [s[0]] + s[1..][..k - 1];
        }
      }
    }
  }

  lemma {:induction false} FirstCharAt(a: string, c: char, b: string)
    requires c !in a
    ensures First(a + [c] + b, [c]) == Some(|a|)
  {
    var s := a + [c] + b;
    if a == "" {
      assert s[..1] == [c];
    } else {
      assert s[0] == a[0] && s[1..] == a[1..] + [c] + b;
      assert !HasPrefix(s, [c]);
      FirstCharAt(a[1..], c, b);
    }
  }

  /** Trimmed, non-empty pieces. */
  function Pieces(parts: seq<string>): seq<string>
    decreases |parts|
  {
    if parts == [] then []
    else (if TrimSpace(parts[0]) == "" then [] else [TrimSpace(parts[0])]) + Pieces(parts[1..])
  }

  /** One semicolon-separated part, or nothing if it names no command or no subcommand. */
  function EntryOf(part: string): Option<Entry> {
    var p := TrimSpace(part);
    match First(p, ":")
    case None => None
    case Some(k) =>
      if k >= |p| then None
      else
        var cmd := TrimSpace(p[..k]);
        var subs := Pieces(Split(TrimSpace(p[k + 1..]), ','));
        if cmd == "" || subs == [] then None else Some(Entry(cmd, subs))
  }

  /** Later parts for the same command replace earlier ones. */
  function Collect(parts: seq<string>, acc: Allowed): Allowed
    decreases |parts|
  {
    if parts == [] then acc
    else Collect(parts[1..], match EntryOf(parts[0]) case None => acc case Some(e) => acc[e.cmd := e.subs])
  }

  function Parse(s: string): Allowed {
    if s == "" then map[] else Collect(Split(s, ';'), map[])
  }

  lemma {:induction false} PiecesStep(parts: seq<string>, i: nat, subs: seq<string>)
    requires i < |parts|
    ensures var sub := TrimSpace(parts[i]);
      subs + Pieces(parts[i..]) == (if sub == "" then subs else subs + [sub]) + Pieces(parts[i + 1..])
  {
    assert parts[i..][1..] == parts[i + 1..];
    var sub := TrimSpace(parts[i]);
    assert subs + ([sub] + Pieces(parts[i + 1..])) == subs + [sub] + Pieces(parts[i + 1..]);
  }

  method ParseSubs(parts: seq<string>) returns (subs: seq<string>)
    ensures subs == Pieces(parts)
  {
    subs := [];
    for i := 0 to |parts|
      invariant Pieces(parts) == subs + Pieces(parts[i..])
    {
      PiecesStep(parts, i, subs);
      var sub := TrimSpace(parts[i]);
      if sub != "" {
        subs := subs + [sub];
      }
    }
    assert parts[|parts|..] == [];
    assert subs + [] == subs;
  }

  method ParsePart(part: string) returns (e: Option<Entry>)
    ensures e == EntryOf(part)
  {
    var p := TrimSpace(part);
    if p == "" {
      return None;
    }
    var idx := First(p, ":");
    FirstChar(p, ':');
    if idx.None? {
      return None;
    }
    var cmd := TrimSpace(p[..idx.value]);
    var subs := ParseSubs(Split(TrimSpace(p[idx.value + 1..]), ','));
    e := if cmd != "" && |subs| > 0 then Some(Entry(cmd, subs)) else None;
  }

  method ParseAllowedSubcmds(s: string) returns (result: Allowed)
    ensures result == Parse(s)
  {
    if s == "" {
      return map[];
    }
    var parts := Split(s, ';');
    result := map[];
    for i := 0 to |parts|
      invariant Collect(parts, map[]) == Collect(parts[i..], result)
    {
      assert parts[i..][1..] == parts[i + 1..];
      var e := ParsePart(parts[i]);
      if e.Some? {
        result := result[e.value.cmd := e.value.subs];
      }
    }
    assert parts[|parts|..] == [];
  }

  /*** buildAllowedSubcmds ***/

  function PartFor(cmd: string, subs: seq<string>): string {
    cmd + [':'] + Join(subs, ',')
  }

  function SubsOf(m: Allowed, cmd: string): seq<string> {
    if cmd in m then m[cmd] else []
  }

  function PartsFor(m: Allowed, order: seq<string>): (r: seq<string>)
    ensures |r| == |order|
    decreases |order|
  {
    if order == [] then [] else [PartFor(order[0], SubsOf(m, order[0]))] + PartsFor(m, order[1..])
  }

  /** The keys of `m`, each exactly once, in some order. */
  ghost predicate IsOrder(m: Allowed, order: seq<string>) {
    && (forall k :: k in m <==> k in order)
    && (forall i, j :: 0 <= i < j < |order| ==> order[i] != order[j])
  }

  function Build(m: Allowed, order: seq<string>): string {
    Join(PartsFor(m, order), ';')
  }

  lemma {:induction false} PartsSnoc(m: Allowed, order: seq<string>, k: string)
    ensures PartsFor(m, order + [k]) == PartsFor(m, order) + [PartFor(k, SubsOf(m, k))]
    decreases |order|
  {
    if order == [] {
      assert order + [k] == [k] && [k][1..] == [];
    } else {
      PartsSnoc(m, order[1..], k);
      assert (order + [k])[1..] == order[1..] + [k];
    }
  }

  /** The map is visited in an order of the runtime's choosing. */
  method BuildAllowedSubcmds(m: Allowed) returns (s: string)
    ensures exists order :: IsOrder(m, order) && s == Build(m, order)
  {
    ghost var order: seq<string> := [];
    if |m| == 0 {
      assert IsOrder(m, order) && Build(m, order) == "";
      return "";
    }
    var parts: seq<string> := [];
    var left := m.Keys;
    while left != {}
      invariant left <= m.Keys
      invariant forall k :: k in order <==> k in m.Keys - left
      invariant forall i, j :: 0 <= i < j < |order| ==> order[i] != order[j]
      invariant parts == PartsFor(m, order)
      decreases |left|
    {
      var cmd :| cmd in left;
      assert cmd !in order;
      PartsSnoc(m, order, cmd);
      parts := parts + [PartFor(cmd, m[cmd])];
      order := order + [cmd];
      left := left - {cmd};
    }
    s := Join(parts, ';');
    assert IsOrder(m, order) && s == Build(m, order);
  }

  /*** Round trips ***/

  predicate GoodSub(sub: string) {
    sub != "" && Trimmed(sub, IsSpace) && ',' !in sub && ';' !in sub
  }

  predicate GoodSubs(subs: seq<string>) {
    subs != [] && forall i :: 0 <= i < |subs| ==> GoodSub(subs[i])
  }

  predicate GoodCmd(cmd: string) {
    cmd != "" && Trimmed(cmd, IsSpace) && ':' !in cmd && ';' !in cmd
  }

  /** Every command and subcommand is non-empty, trimmed and free of the separators around it. */
  predicate WellFormed(m: Allowed) {
    forall k :: k in m ==> GoodCmd(k) && GoodSubs(m[k])
  }

  lemma {:induction false} JoinEnds(subs: seq<string>, sep: char)
    requires GoodSubs(subs) && sep == ','
    ensures var j := Join(subs, sep); j != "" && ';' !in j && !IsSpace(j[0]) && !IsSpace(j[|j| - 1])
    decreases |subs|
  {
    assert GoodSub(subs[0]);
    if |subs| <= 1 {
    } else {
      assert GoodSubs(subs[1..]);
      JoinEnds(subs[1..], sep);
      var rest := Join(subs[1..], sep);
      var j := Join(subs, sep);
      assert j == subs[0] + [sep] + rest;
      assert j[0] == subs[0][0] && j[|j| - 1] == rest[|rest| - 1];
    }
  }

  lemma {:induction false} GoodPieces(subs: seq<string>)
    requires forall i :: 0 <= i < |subs| ==> GoodSub(subs[i])
    ensures Pieces(subs) == subs
    decreases |subs|
  {
    if subs == [] {
    } else {
      assert GoodSub(subs[0]);
      TrimmedUnchanged(subs[0], IsSpace);
      GoodPieces(subs[1..]);
    }
  }

  lemma {:induction false} PartReadsBack(cmd: string, subs: seq<string>)
    requires GoodCmd(cmd) && GoodSubs(subs)
    ensures EntryOf(PartFor(cmd, subs)) == Some(Entry(cmd, subs)) && ';' !in PartFor(cmd, subs)
  {
    var joined := Join(subs, ',');
    var part := PartFor(cmd, subs);
    JoinEnds(subs, ',');
    assert part[0] == cmd[0] && part[|part| - 1] == joined[|joined| - 1];
    TrimmedUnchanged(part, IsSpace);
    FirstCharAt(cmd, ':', joined);
    assert part[..|cmd|] == cmd && part[|cmd| + 1..] == joined;
    TrimmedUnchanged(cmd, IsSpace);
    TrimmedUnchanged(joined, IsSpace);
    assert forall p :: p in subs ==> ',' !in p;
    SplitJoin(subs, ',');
    GoodPieces(subs);
  }

  /** The entries of `order` taken from `m`, on top of `acc`. */
  function Overlay(m: Allowed, order: seq<string>, acc: Allowed): Allowed
    requires forall i :: 0 <= i < |order| ==> order[i] in m
    decreases |order|
  {
    if order == [] then acc else Overlay(m, order[1..], acc[order[0] := m[order[0]]])
  }

  lemma {:induction false} CollectOverlays(m: Allowed, order: seq<string>, acc: Allowed)
    requires WellFormed(m) && forall i :: 0 <= i < |order| ==> order[i] in m
    ensures Collect(PartsFor(m, order), acc) == Overlay(m, order, acc)
    ensures forall p :: p in PartsFor(m, order) ==> ';' !in p
    decreases |order|
  {
    if order == [] {
    } else {
      var k := order[0];
      assert k in m;
      PartReadsBack(k, m[k]);
      assert PartsFor(m, order)[1..] == PartsFor(m, order[1..]);
      CollectOverlays(m, order[1..], acc[k := m[k]]);
    }
  }

  lemma {:induction false} OverlayMeaning(m: Allowed, order: seq<string>, acc: Allowed)
    requires forall i :: 0 <= i < |order| ==> order[i] in m
    ensures forall k :: k in Overlay(m, order, acc) <==> k in acc || k in order
    ensures forall k :: k in order ==> Overlay(m, order, acc)[k] == m[k]
    ensures forall k :: k in acc && k !in order ==> Overlay(m, order, acc)[k] == acc[k]
    decreases |order|
  {
    if order == [] {
    } else {
      assert order == [order[0]] + order[1..];
      OverlayMeaning(m, order[1..], acc[order[0] := m[order[0]]]);
    }
  }

  lemma {:induction false} OverlayIsAll(m: Allowed, order: seq<string>)
    requires IsOrder(m, order)
    ensures Overlay(m, order, map[]) == m
  {
    OverlayMeaning(m, order, map[]);
  }

  /** A well-formed map survives printing in any order. */
  lemma {:induction false} ParseBuild(m: Allowed, order: seq<string>)
    requires WellFormed(m) && IsOrder(m, order)
    ensures Parse(Build(m, order)) == m
  {
    if order == [] {
      assert m == map[];
    } else {
      CollectOverlays(m, order, map[]);
      SplitJoin(PartsFor(m, order), ';');
      BuildNotEmpty(m, order);
      OverlayIsAll(m, order);
    }
  }

  lemma {:induction false} BuildNotEmpty(m: Allowed, order: seq<string>)
    requires order != []
    ensures Build(m, order) != ""
  {
    var parts := PartsFor(m, order);
    assert parts[0] == PartFor(order[0], SubsOf(m, order[0])) != "";
  }

  lemma {:induction false} TrimmedPiece(s: string)
    ensures Trimmed(TrimSpace(s), IsSpace) && forall c :: c in TrimSpace(s) ==> c in s
  {
    var a, b := TrimParts(s, IsSpace);
    assert s == a + TrimSpace(s) + b;
  }

  lemma {:induction false} PiecesGood(parts: seq<string>)
    requires forall p :: p in parts ==> ',' !in p && ';' !in p
    ensures forall i :: 0 <= i < |Pieces(parts)| ==> GoodSub(Pieces(parts)[i])
    decreases |parts|
  {
    if parts == [] {
    } else {
      assert parts[0] in parts;
      TrimmedPiece(parts[0]);
      PiecesGood(parts[1..]);
    }
  }

  lemma {:induction false} SplitChars(s: string, sep: char, c: char)
    requires c !in s
    ensures forall p :: p in Split(s, sep) ==> c !in p
  {
    if s == "" {
    } else {
      SplitChars(s[1..], sep, c);
      var rest := Split(s[1..], sep);
      assert rest[0] in rest && forall p :: p in rest[1..] ==> p in rest;
    }
  }

  lemma {:induction false} EntryGood(part: string)
    requires ';' !in part
    ensures EntryOf(part).Some? ==> GoodCmd(EntryOf(part).value.cmd) && GoodSubs(EntryOf(part).value.subs)
  {
    var p := TrimSpace(part);
    TrimmedPiece(part);
    FirstChar(p, ':');
    if First(p, ":").Some? {
      var k := First(p, ":").value;
      TrimmedPiece(p[..k]);
      TrimmedPiece(p[k + 1..]);
      var rest := TrimSpace(p[k + 1..]);
      SplitHasNoSep(rest, ',');
      SplitChars(rest, ',', ';');
      PiecesGood(Split(rest, ','));
    }
  }

  lemma {:induction false} CollectGood(parts: seq<string>, acc: Allowed)
    requires WellFormed(acc) && forall p :: p in parts ==> ';' !in p
    ensures WellFormed(Collect(parts, acc))
    decreases |parts|
  {
    if parts == [] {
    } else {
      assert parts[0] in parts;
      EntryGood(parts[0]);
      CollectGood(parts[1..], match EntryOf(parts[0]) case None => acc case Some(e) => acc[e.cmd := e.subs]);
    }
  }

  /** Whatever text is parsed, the result is well-formed. */
  lemma {:induction false} ParseIsWellFormed(s: string)
    ensures WellFormed(Parse(s))
  {
    SplitHasNoSep(s, ';');
    CollectGood(Split(s, ';'), map[]);
  }

  /** Printing and parsing again gives back exactly the maps that are well-formed. */
  lemma {:induction false} ParseBuildIff(m: Allowed, order: seq<string>)
    requires IsOrder(m, order)
    ensures Parse(Build(m, order)) == m <==> WellFormed(m)
  {
    ParseIsWellFormed(Build(m, order));
    if WellFormed(m) {
      ParseBuild(m, order);
    }
  }

  /** Parsing is stable: print the parsed map in any order, and it parses to the same map. */
  lemma {:induction false} ParseBuildParse(s: string, order: seq<string>)
    requires IsOrder(Parse(s), order)
    ensures Parse(Build(Parse(s), order)) == Parse(s)
  {
    ParseIsWellFormed(s);
    ParseBuild(Parse(s), order);
  }
}
