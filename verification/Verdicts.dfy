/** How a verdict read from a reply is normalised against the outcomes a step allows (parseOrchestratedResult,
    normalizeOrchestratedOutcome). */
module Verdicts {
  import opened Text

  function Lowered(allowed: seq<string>): (r: seq<string>)
    ensures |r| == |allowed|
    decreases |allowed|
  {
    if allowed == [] then [] else [ToLower(allowed[0])] + Lowered(allowed[1..])
  }

  function Folded(outcome: string): string {
    TrimSpace(ToLower(outcome))
  }

  /** The normalised form of a folded outcome, or "" when it is not allowed. `blocked` counts as a failure, and the two
      spellings of a failure stand for each other. */
  function Matched(o: string, lowered: seq<string>): string {
    if o == "" || o in lowered then o
    else if (o == "fail" || o == "blocked") && "failure" in lowered then "failure"
    else if (o == "failure" || o == "blocked") && "fail" in lowered then "fail"
    else if lowered == [] then o
    else ""
  }

  function Normal(outcome: string, allowed: seq<string>): string {
    Matched(Folded(outcome), Lowered(allowed))
  }

  method NormalizeOutcome(outcome: string, allowed: seq<string>) returns (r: string)
    ensures r == Normal(outcome, allowed)
  {
    var o := TrimSpace(ToLower(outcome));
    if o == "" {
      return "";
    }
    var allowedSet: set<string> := {};
    for i := 0 to |allowed|
      invariant forall x :: x in Lowered(allowed) <==> x in allowedSet || x in Lowered(allowed[i..])
    {
      LoweredStep(allowed, i);
      allowedSet := allowedSet + {ToLower(allowed[i])};
    }
    assert allowed[|allowed|..] == [];
    if o in allowedSet {
      return o;
    }
    if o == "fail" && "failure" in allowedSet {
      return "failure";
    }
    if o == "failure" && "fail" in allowedSet {
      return "fail";
    }
    if o == "blocked" {
      if "failure" in allowedSet {
        return "failure";
      }
      if "fail" in allowedSet {
        return "fail";
      }
    }
    if |allowed| == 0 {
      return o;
    }
    return "";
  }

  lemma {:induction false} LoweredStep(allowed: seq<string>, i: nat)
    requires i < |allowed|
    ensures forall x :: x in Lowered(allowed[i..]) <==> x == ToLower(allowed[i]) || x in Lowered(allowed[i + 1..])
  {
    assert allowed[i..][0] == allowed[i] && allowed[i..][1..] == allowed[i + 1..];
  }

  /** The verdict of a reply: the outcome of its JSON, or else of its outcome line, whichever is allowed first. */
  function Parsed(json: Option<string>, line: Option<string>, allowed: seq<string>): Option<string> {
    if json.Some? && Normal(json.value, allowed) != "" then Some(Normal(json.value, allowed))
    else if line.Some? && Normal(line.value, allowed) != "" then Some(Normal(line.value, allowed))
    else None
  }

  /*** What normalising gives ***/

  predicate Allowed(allowed: seq<string>, name: string) {
    allowed == [] || name in Lowered(allowed)
  }

  /** Every outcome but the two failures is given for that very word, in any case and with white space around it, if and
      only if the step lists it or lists nothing. */
  lemma {:induction false} NormalIff(outcome: string, allowed: seq<string>, name: string)
    requires name != "" && name != "fail" && name != "failure"
    ensures Normal(outcome, allowed) == name <==> Folded(outcome) == name && Allowed(allowed, name)
  {
    assert Lowered(allowed) == [] <==> allowed == [];
  }

  predicate IsFolded(s: string) {
    Folded(s) == s
  }

  lemma {:induction false} LowerAgain(s: string)
    ensures ToLower(ToLower(s)) == ToLower(s)
  {
    assert forall i :: 0 <= i < |s| ==> Lower(Lower(s[i])) == Lower(s[i]);
  }

  lemma {:induction false} FoldedAgain(outcome: string)
    ensures IsFolded(Folded(outcome))
  {
    var l := ToLower(outcome);
    var t := TrimSpace(l);
    LowerAgain(outcome);
    var a, b := TrimParts(l, IsSpace);
    assert forall i :: 0 <= i < |t| ==> t[i] == l[|a| + i] == Lower(l[|a| + i]);
    assert ToLower(t) == t;
    TrimIdempotent(l, IsSpace);
  }

  lemma {:induction false} FailuresAreFolded()
    ensures IsFolded("fail") && IsFolded("failure")
  {
    assert ToLower("fail") == "fail" && ToLower("failure") == "failure";
    TrimmedUnchanged("fail", IsSpace);
    TrimmedUnchanged("failure", IsSpace);
  }

  /** Normalising a second time, as every caller of the parser does, changes nothing. */
  lemma {:induction false} NormalIsStable(outcome: string, allowed: seq<string>)
    ensures Normal(Normal(outcome, allowed), allowed) == Normal(outcome, allowed)
  {
    FoldedAgain(outcome);
    FailuresAreFolded();
    assert Folded("") == "";
  }
}
