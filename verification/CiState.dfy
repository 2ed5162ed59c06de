/** Classification of pull-request checks, as a maximum over single checks. */
module CiState {

  datatype Check = Check(name: string, conclusion: string, status: string)

  datatype Verdict = NoChecks | Passed | PolicyBlocked | Pending | Failed

  const FAIL_VALUES: set<string> := {"FAILURE", "ERROR", "TIMED_OUT", "CANCELLED", "ACTION_REQUIRED",
      "STARTUP_FAILURE", "STALE"}
  const PENDING_VALUES: set<string> := {"PENDING", "QUEUED", "IN_PROGRESS", "REQUESTED", "WAITING", "EXPECTED"}

  predicate Failing(c: Check) {
    c.conclusion in FAIL_VALUES || c.status in FAIL_VALUES
  }

  predicate Waiting(c: Check) {
    c.status in PENDING_VALUES || c.conclusion in PENDING_VALUES
  }

  function Filter(cs: seq<Check>, p: Check -> bool): seq<Check>
    decreases |cs|
  {
    if cs == [] then [] else (if p(cs[0]) then [cs[0]] else []) + Filter(cs[1..], p)
  }

  predicate AllOf(cs: seq<Check>, p: Check -> bool) {
    forall i :: 0 <= i < |cs| ==> p(cs[i])
  }

  /** `policy` tells policy checks by their name. */
  function Classify(policy: Check -> bool, checks: seq<Check>): Verdict {
    if checks == [] then NoChecks
    else
      var failing := Filter(checks, Failing);
      var pending := Filter(checks, Waiting);
      if failing != [] then
        if Filter(failing, c => !policy(c)) != [] then Failed
        else if Filter(pending, c => !policy(c)) != [] then Pending
        else PolicyBlocked
      else if pending != [] then
        if AllOf(pending, policy) then PolicyBlocked else Pending
      else Passed
  }

  function Rank(v: Verdict): nat {
    match v
    case NoChecks => 0
    case Passed => 1
    case PolicyBlocked => 2
    case Pending => 3
    case Failed => 4
  }

  function Max(v: Verdict, w: Verdict): Verdict {
    if Rank(v) < Rank(w) then w else v
  }

  /** The verdict on a single check. */
  function Single(policy: Check -> bool, c: Check): Verdict {
    if Failing(c) && !policy(c) then Failed
    else if Waiting(c) && !policy(c) then Pending
    else if Failing(c) || Waiting(c) then PolicyBlocked
    else Passed
  }

  function Fold(policy: Check -> bool, checks: seq<Check>): Verdict
    decreases |checks|
  {
    if checks == [] then NoChecks else Max(Single(policy, checks[0]), Fold(policy, checks[1..]))
  }

  lemma {:induction false} FilterIn(cs: seq<Check>, p: Check -> bool, c: Check)
    ensures c in Filter(cs, p) <==> c in cs && p(c)
    decreases |cs|
  {
    if cs == [] {
    } else {
      assert cs == [cs[0]] + cs[1..];
      FilterIn(cs[1..], p, c);
    }
  }

  lemma {:induction false} FilterEmpty(cs: seq<Check>, p: Check -> bool)
    ensures Filter(cs, p) == [] <==> forall c :: c in cs ==> !p(c)
  {
    if Filter(cs, p) != [] {
      FilterIn(cs, p, Filter(cs, p)[0]);
      assert Filter(cs, p)[0] in Filter(cs, p);
    } else {
      forall c | c in cs ensures !p(c) {
        FilterIn(cs, p, c);
      }
    }
  }

  ghost predicate Any(cs: seq<Check>, p: Check -> bool) {
    exists c :: c in cs && p(c)
  }

  /** The verdict by what kinds of checks there are. */
  ghost function ByKinds(policy: Check -> bool, cs: seq<Check>): Verdict {
    if Any(cs, c => Failing(c) && !policy(c)) then Failed
    else if Any(cs, c => Waiting(c) && !policy(c)) then Pending
    else if Any(cs, c => Failing(c) || Waiting(c)) then PolicyBlocked
    else if cs != [] then Passed
    else NoChecks
  }

  lemma {:induction false} FilterTwice(cs: seq<Check>, p: Check -> bool, policy: Check -> bool)
    ensures Filter(Filter(cs, p), c => !policy(c)) != [] <==> exists c :: c in cs && p(c) && !policy(c)
  {
    FilterEmpty(Filter(cs, p), c => !policy(c));
    forall c ensures c in Filter(cs, p) <==> c in cs && p(c) {
      FilterIn(cs, p, c);
    }
  }

  lemma {:induction false} AllPolicy(cs: seq<Check>, p: Check -> bool, policy: Check -> bool)
    ensures AllOf(Filter(cs, p), policy) <==> forall c :: c in cs && p(c) ==> policy(c)
  {
    forall c ensures c in Filter(cs, p) <==> c in cs && p(c) {
      FilterIn(cs, p, c);
    }
    assert forall i :: 0 <= i < |Filter(cs, p)| ==> Filter(cs, p)[i] in Filter(cs, p);
  }

  lemma {:induction false} ClassifyByKinds(policy: Check -> bool, checks: seq<Check>)
    ensures Classify(policy, checks) == ByKinds(policy, checks)
  {
    FilterEmpty(checks, Failing);
    FilterEmpty(checks, Waiting);
    FilterTwice(checks, Failing, policy);
    FilterTwice(checks, Waiting, policy);
    AllPolicy(checks, Waiting, policy);
  }

  lemma {:induction false} KindsFold(policy: Check -> bool, checks: seq<Check>)
    ensures ByKinds(policy, checks) == Fold(policy, checks)
    decreases |checks|
  {
    if checks == [] {
    } else {
      KindsFold(policy, checks[1..]);
      AnyCons(checks, c => Failing(c) && !policy(c));
      AnyCons(checks, c => Waiting(c) && !policy(c));
      AnyCons(checks, c => Failing(c) || Waiting(c));
    }
  }

  lemma {:induction false} AnyCons(cs: seq<Check>, p: Check -> bool)
    requires cs != []
    ensures Any(cs, p) <==> p(cs[0]) || Any(cs[1..], p)
  {
    assert cs == [cs[0]] + cs[1..];
  }

  /** The classification is the fold of single-check verdicts under the maximum. */
  lemma {:induction false} ClassifyIsFold(policy: Check -> bool, checks: seq<Check>)
    ensures Classify(policy, checks) == Fold(policy, checks)
  {
    ClassifyByKinds(policy, checks);
    KindsFold(policy, checks);
  }

  lemma {:induction false} FoldAppend(policy: Check -> bool, a: seq<Check>, b: seq<Check>)
    ensures Fold(policy, a + b) == Max(Fold(policy, a), Fold(policy, b))
    decreases |a|
  {
    if a == [] {
      assert a + b == b;
    } else {
      FoldAppend(policy, a[1..], b);
      assert (a + b)[1..] == a[1..] + b;
    }
  }

  /** Classifying a concatenation takes the worse verdict; so one more check never improves it. */
  lemma {:induction false} ClassifyJoins(policy: Check -> bool, a: seq<Check>, b: seq<Check>)
    ensures Classify(policy, a + b) == Max(Classify(policy, a), Classify(policy, b))
    ensures Rank(Classify(policy, a + b)) >= Rank(Classify(policy, a))
  {
    ClassifyIsFold(policy, a);
    ClassifyIsFold(policy, b);
    ClassifyIsFold(policy, a + b);
    FoldAppend(policy, a, b);
  }

  lemma {:induction false} SameMembers(a: seq<Check>, b: seq<Check>, p: Check -> bool)
    requires forall c :: c in a <==> c in b
    ensures (Any(a, p) <==> Any(b, p)) && (a == [] <==> b == [])
  {
    if a != [] { assert a[0] in b; }
    if b != [] { assert b[0] in a; }
    if Any(a, p) {
      var i :| 0 <= i < |a| && p(a[i]);
      assert a[i] in b;
    }
    if Any(b, p) {
      var i :| 0 <= i < |b| && p(b[i]);
      assert b[i] in a;
    }
  }

  /** Order and repetition of checks do not matter. */
  lemma {:induction false} ClassifyIgnoresOrder(policy: Check -> bool, a: seq<Check>, b: seq<Check>)
    requires forall c :: c in a <==> c in b
    ensures Classify(policy, a) == Classify(policy, b)
  {
    ClassifyByKinds(policy, a);
    ClassifyByKinds(policy, b);
    SameMembers(a, b, c => Failing(c) && !policy(c));
    SameMembers(a, b, c => Waiting(c) && !policy(c));
    SameMembers(a, b, c => Failing(c) || Waiting(c));
  }
}
