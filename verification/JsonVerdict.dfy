/** The verdict of a reply (parseOrchestratedJSON): of all the objects found in it, a fenced block and the reply as a
    whole, the last that decodes to an outcome. */
module JsonVerdict {
  import opened Text
  import opened JsonScan

  /** `decode` gives the outcome that a text decodes to, "" when it does not decode or has none. */
  function Accepts(decode: string -> string): string -> bool {
    raw => decode(raw) != ""
  }

  function Said(decode: string -> string, raw: string): string {
    var t := TrimSpace(raw);
    if t == "" then "" else decode(t)
  }

  function LastSaid(cands: seq<string>, decode: string -> string): string
    decreases |cands|
  {
    if cands == [] then ""
    else
      var said := Said(decode, cands[|cands| - 1]);
      if said != "" then said else LastSaid(cands[..|cands| - 1], decode)
  }

  function Fenced(block: Option<string>): seq<string> {
    match block case None => [] case Some(b) => [TrimSpace(b)]
  }

  /** `block` is what the first fenced JSON block of the reply holds, if there is one. */
  function Verdict(text: string, block: Option<string>, decode: string -> string): string {
    LastSaid(Candidates(text, 0, Accepts(decode)) + Fenced(block) + [TrimSpace(text)], decode)
  }

  lemma {:induction false} LastSaidSnoc(cands: seq<string>, c: string, decode: string -> string)
    ensures LastSaid(cands + [c], decode) == if Said(decode, c) != "" then Said(decode, c) else LastSaid(cands, decode)
  {
    assert (cands + [c])[..|cands|] == cands;
  }

  lemma {:induction false} LastSaidUpTo(cands: seq<string>, i: nat, decode: string -> string)
    requires i < |cands|
    ensures LastSaid(cands[..i + 1], decode) == if Said(decode, cands[i]) != "" then Said(decode, cands[i])
      else LastSaid(cands[..i], decode)
  {
    assert cands[..i + 1] == cands[..i] + [cands[i]];
    LastSaidSnoc(cands[..i], cands[i], decode);
  }

  method LastOutcome(candidates: seq<string>, decode: string -> string) returns (outcome: string)
    ensures outcome == LastSaid(candidates, decode)
  {
    outcome := "";
    for i := 0 to |candidates|
      invariant outcome == LastSaid(candidates[..i], decode)
    {
      LastSaidUpTo(candidates, i, decode);
      var raw := TrimSpace(candidates[i]);
      if raw != "" && decode(raw) != "" {
        outcome := decode(raw);
      }
    }
    assert candidates[..|candidates|] == candidates;
  }

  method ParseJson(text: string, block: Option<string>, decode: string -> string) returns (outcome: string)
    ensures outcome == Verdict(text, block, decode)
  {
    var candidates := ExtractObjects(text, Accepts(decode));
    if block.Some? {
      candidates := candidates + [TrimSpace(block.value)];
    } else {
      assert candidates + [] == candidates;
    }
    candidates := candidates + [TrimSpace(text)];
    outcome := LastOutcome(candidates, decode);
  }

  /*** Who has the last word ***/

  lemma {:induction false} SaidTrimmed(decode: string -> string, raw: string)
    ensures Said(decode, TrimSpace(raw)) == Said(decode, raw)
  {
    TrimIdempotent(raw, IsSpace);
  }

  /** What the fenced block and the whole reply say goes before anything found in the text. */
  function Overall(text: string, block: Option<string>, decode: string -> string): string {
    if Said(decode, text) != "" then Said(decode, text) else if block.Some? then Said(decode, block.value) else ""
  }

  lemma {:induction false} RegroupAround(a: string, b: string, p: string, c: string, d: string)
    ensures a + (b + p + c) + d == (a + b) + p + (c + d)
  {
  }

  lemma {:induction false} OverallGoesFirst(text: string, block: Option<string>, decode: string -> string)
    ensures Verdict(text, block, decode) ==
      if Overall(text, block, decode) != "" then Overall(text, block, decode)
      else LastSaid(Candidates(text, 0, Accepts(decode)), decode)
  {
    var found := Candidates(text, 0, Accepts(decode));
    LastSaidSnoc(found + Fenced(block), TrimSpace(text), decode);
    SaidTrimmed(decode, text);
    if block.Some? {
      LastSaidSnoc(found, TrimSpace(block.value), decode);
      SaidTrimmed(decode, block.value);
    } else {
      assert found + [] == found;
    }
  }

  lemma {:induction false} LastSaidAppend(a: seq<string>, b: seq<string>, decode: string -> string)
    ensures LastSaid(a + b, decode) == if LastSaid(b, decode) != "" then LastSaid(b, decode) else LastSaid(a, decode)
    decreases |b|
  {
    if b == [] {
      assert a + b == a;
    } else {
      var n := |b| - 1;
      assert b == b[..n] + [b[n]] && a + b == (a + b[..n]) + [b[n]];
      LastSaidAppend(a, b[..n], decode);
      LastSaidSnoc(a + b[..n], b[n], decode);
      LastSaidSnoc(b[..n], b[n], decode);
    }
  }

  lemma {:induction false} LastSaidStep(s: string, i: nat, decode: string -> string)
    requires i < |s|
    ensures var later := LastSaid(Candidates(s, i + 1, Accepts(decode)), decode);
      later != "" ==> LastSaid(Candidates(s, i, Accepts(decode)), decode) == later
  {
    LastSaidAppend(CandidateAt(s, i, Accepts(decode)), Candidates(s, i + 1, Accepts(decode)), decode);
  }

  /** The candidates that start in front of position `j`, and those from there on. */
  lemma {:induction false} LastSaidFrom(s: string, i: nat, j: nat, decode: string -> string)
    requires i <= j <= |s| && LastSaid(Candidates(s, j, Accepts(decode)), decode) != ""
    ensures LastSaid(Candidates(s, i, Accepts(decode)), decode) == LastSaid(Candidates(s, j, Accepts(decode)), decode)
    decreases j - i
  {
    if i == j {
    } else {
      LastSaidFrom(s, i + 1, j, decode);
      LastSaidStep(s, i, decode);
    }
  }

  lemma {:induction false} ObjectSays(before: string, o: Value, after: string, text: string, decode: string -> string)
    requires o.Obj? && ValidValue(o) && text == before + Print(o) + after && decode(Print(o)) != ""
    ensures |before| < |text| && CandidateAt(text, |before|, Accepts(decode)) == [Print(o)]
    ensures LastSaid([Print(o)], decode) == decode(Print(o))
  {
    FindsMatchingBrace(before, o, after, text);
    var i, n := |before|, |Print(o)|;
    assert text[i..i + n] == Print(o);
    assert Print(o)[0] == '{' && Print(o)[n - 1] == '}';
    TrimmedUnchanged(Print(o), IsSpace);
    assert [Print(o)][..0] == [];
  }

  /** What the objects say that start inside or behind the one at `i`. */
  function SaidAfter(text: string, i: nat, decode: string -> string): string {
    LastSaid(Candidates(text, i + 1, Accepts(decode)), decode)
  }

  /** The object that starts last has the word. */
  lemma {:induction false} LastStartSpeaks(before: string, o: Value, after: string, text: string,
                                           decode: string -> string)
    requires o.Obj? && ValidValue(o) && text == before + Print(o) + after && decode(Print(o)) != ""
    ensures LastSaid(Candidates(text, 0, Accepts(decode)), decode) ==
      if SaidAfter(text, |before|, decode) != "" then SaidAfter(text, |before|, decode) else decode(Print(o))
  {
    ObjectSays(before, o, after, text, decode);
    LastSaidAppend([Print(o)], Candidates(text, |before| + 1, Accepts(decode)), decode);
    LastSaidFrom(text, 0, |before|, decode);
  }

  /** Wherever an object with an outcome stands in a reply, the verdict is its outcome if and only if nothing else is
      said by the reply as a whole; or else by a fenced block; or else by the objects that start behind its opening
      brace, its own nested objects among them. */
  lemma {:induction false} VerdictOfObjectIff(before: string, o: Value, after: string, text: string,
                                              block: Option<string>, decode: string -> string)
    requires o.Obj? && ValidValue(o) && text == before + Print(o) + after && decode(Print(o)) != ""
    ensures Verdict(text, block, decode) == decode(Print(o)) <==>
      var overall := Overall(text, block, decode);
      var other := if overall != "" then overall else SaidAfter(text, |before|, decode);
      other == "" || other == decode(Print(o))
  {
    OverallGoesFirst(text, block, decode);
    LastStartSpeaks(before, o, after, text, decode);
  }

  lemma {:induction false} NoBraceNothingFound(s: string, i: nat, accepts: string -> bool)
    requires i <= |s| && '{' !in s[i..]
    ensures Candidates(s, i, accepts) == []
    decreases |s| - i
  {
    if i == |s| {
    } else {
      assert s[i..][0] == s[i] && s[i..][1..] == s[i + 1..];
      NoBraceNothingFound(s, i + 1, accepts);
    }
  }

  /** In particular, when no brace opens behind its own and neither the whole reply nor a fenced block says anything. */
  lemma {:induction false} LastObjectSpeaks(before: string, o: Value, after: string, text: string,
                                            block: Option<string>, decode: string -> string)
    requires o.Obj? && ValidValue(o) && text == before + Print(o) + after && decode(Print(o)) != ""
    requires '{' !in Print(o)[1..] + after && Overall(text, block, decode) == ""
    ensures Verdict(text, block, decode) == decode(Print(o))
  {
    assert text[|before| + 1..] == Print(o)[1..] + after;
    NoBraceNothingFound(text, |before| + 1, Accepts(decode));
    VerdictOfObjectIff(before, o, after, text, block, decode);
  }

  /** So an object nested in another, the last to start in a reply with text around it, overrules the outer verdict. */
  lemma {:induction false} NestedOverrules(before: string, outer: Value, a: string, inner: Value, b: string,
                                           after: string, text: string, block: Option<string>, decode: string -> string)
    requires outer.Obj? && ValidValue(outer) && inner.Obj? && ValidValue(inner) && Print(outer) == a + Print(inner) + b
    requires text == before + Print(outer) + after && '{' !in Print(inner)[1..] + (b + after)
    requires decode(Print(outer)) != "" && decode(Print(inner)) != "" && Overall(text, block, decode) == ""
    ensures Verdict(text, block, decode) == decode(Print(inner))
    ensures Verdict(text, block, decode) == decode(Print(outer)) <==> decode(Print(outer)) == decode(Print(inner))
  {
    RegroupAround(before, a, Print(inner), b, after);
    LastObjectSpeaks(before + a, inner, b + after, text, block, decode);
  }
}
