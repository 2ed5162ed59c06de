/** What holds of every run of the turn loop: bounded requests, gated success, and breakers that fire
    exactly when their counts over the whole run say so. */
module TurnLoopGates {
  import opened Text
  import opened TurnLoop
  import Verdicts

  /*** Requests ***/

  lemma {:induction false} LoopRequests(cfg: Config, st: State, obs: seq<Obs>, turn: nat, requests: nat)
    requires 1 <= turn <= cfg.maxTurns + 1 && cfg.maxTurns <= |obs|
    ensures Loop(cfg, st, obs, turn, requests).requests <= requests + (cfg.maxTurns + 1 - turn)
    decreases cfg.maxTurns + 1 - turn
  {
    if turn > cfg.maxTurns {
    } else {
      var ob := obs[turn - 1];
      var sent := if Cut(ob) then requests else requests + 1;
      match Turn(cfg, st, ob, turn)
      case Stop(_, _) =>
      case Go(next) => LoopRequests(cfg, next, obs, turn + 1, sent);
    }
  }

  /** Every run makes at most `maxTurns` requests. */
  lemma {:induction false} RequestsBounded(cfg: Config, obs: seq<Obs>)
    requires cfg.maxTurns <= |obs|
    ensures Loop(cfg, START, obs, 1, 0).requests <= cfg.maxTurns
  {
    LoopRequests(cfg, START, obs, 1, 0);
  }

  /*** Success is gated ***/

  lemma {:induction false} TurnGated(cfg: Config, st: State, ob: Obs, turn: nat)
    ensures var a := Turn(cfg, st, ob, turn);
      a.Stop? && SuccessClass(a.outcome) && a.exit != AutoDone ==>
        Accepts(cfg, ob.world, a.outcome) &&
          (a.exit == DesignDone || a.exit == ToolVerdict || a.exit == PlanFlip || a.exit == JsonVerdict)
  {
  }

  lemma {:induction false} StopGated(cfg: Config, st: State, ob: Obs, turn: nat, o: Outcome, exit: Exit)
    requires Turn(cfg, st, ob, turn) == Stop(o, exit)
    ensures SuccessClass(o) && exit != AutoDone ==> Accepts(cfg, ob.world, o)
  {
    TurnGated(cfg, st, ob, turn);
  }

  /** A run ends with the action of its last turn. */
  lemma {:induction false} LoopEnds(cfg: Config, st: State, obs: seq<Obs>, turn: nat, requests: nat)
      returns (last: State)
    requires 1 <= turn <= cfg.maxTurns + 1 && cfg.maxTurns <= |obs|
    ensures var r := Loop(cfg, st, obs, turn, requests);
      if r.exit == Exhausted then !SuccessClass(r.outcome)
      else turn <= r.turns <= cfg.maxTurns && Turn(cfg, last, obs[r.turns - 1], r.turns) == Stop(r.outcome, r.exit)
    decreases cfg.maxTurns + 1 - turn
  {
    last := st;
    if turn > cfg.maxTurns {
    } else {
      var ob := obs[turn - 1];
      var sent := if Cut(ob) then requests else requests + 1;
      match Turn(cfg, st, ob, turn)
      case Stop(_, _) =>
      case Go(next) => last := LoopEnds(cfg, next, obs, turn + 1, sent);
    }
  }

  /** Any success-class outcome of a run, other than an automatic completion, was accepted by artifact
      validation for that very outcome in the very turn that returned it. */
  lemma {:induction false} SuccessWasAccepted(cfg: Config, obs: seq<Obs>)
    requires cfg.maxTurns <= |obs|
    ensures var r := Loop(cfg, START, obs, 1, 0);
      SuccessClass(r.outcome) && r.exit != AutoDone ==>
        1 <= r.turns <= cfg.maxTurns && Accepts(cfg, obs[r.turns - 1].world, r.outcome)
  {
    var r := Loop(cfg, START, obs, 1, 0);
    var last := LoopEnds(cfg, START, obs, 1, 0);
    if r.exit != Exhausted {
      StopGated(cfg, last, obs[r.turns - 1], r.turns, r.outcome, r.exit);
    }
  }

  /*** Verdicts that a step allows ***/

  function OutcomeOf(name: string): Outcome {
    if name == "success" then Success
    else if name == "task_passed" then TaskPassed
    else if name == "all_passed" then AllPassed
    else if name == "completed" then Completed
    else if name == "fail" then Fail
    else if name == "failure" then Failure
    else if name == "timeout" then Timeout
    else if name == "" then NoOutcome
    else Other(name)
  }

  function NameOf(o: Outcome): string
    requires SuccessClass(o)
  {
    match o
    case Success => "success"
    case TaskPassed => "task_passed"
    case AllPassed => "all_passed"
    case Completed => "completed"
  }

  /** The step lists the outcome, or lists none. */
  predicate Allows(cfg: Config, o: Outcome)
    requires SuccessClass(o)
  {
    Verdicts.Allowed(cfg.allowed, NameOf(o))
  }

  /** A reply with outcome `json` in its JSON and `line` on its outcome line yields `verdict`: normalised by the parser,
      and once more by the loop. */
  predicate Yields(cfg: Config, json: Option<string>, line: Option<string>, verdict: Option<Outcome>) {
    match Verdicts.Parsed(json, line, cfg.allowed)
    case None => verdict == None
    case Some(v) => verdict == Some(OutcomeOf(Verdicts.Normal(v, cfg.allowed)))
  }

  /** Some reply yields the verdict of each turn. */
  ghost predicate Heard(cfg: Config, obs: seq<Obs>) {
    forall i :: 0 <= i < |obs| ==> Sayable(cfg, obs[i].verdict)
  }

  ghost predicate Sayable(cfg: Config, verdict: Option<Outcome>) {
    exists json, line :: Yields(cfg, json, line, verdict)
  }

  lemma {:induction false} SuccessNames(o: Outcome)
    requires SuccessClass(o)
    ensures var n := NameOf(o); n != "" && n != "fail" && n != "failure" && Verdicts.IsFolded(n)
    ensures forall n :: OutcomeOf(n) == o <==> n == NameOf(o)
  {
    var n := NameOf(o);
    assert ToLower(n) == n;
    TrimmedUnchanged(n, IsSpace);
  }

  /** Replies yield a success-class verdict if and only if the step lists it or lists nothing. */
  lemma {:induction false} SayableIff(cfg: Config, o: Outcome)
    requires SuccessClass(o)
    ensures Sayable(cfg, Some(o)) <==> Allows(cfg, o)
  {
    var n := NameOf(o);
    SuccessNames(o);
    if Sayable(cfg, Some(o)) {
      var json, line :| Yields(cfg, json, line, Some(o));
      Verdicts.NormalIff(Verdicts.Parsed(json, line, cfg.allowed).value, cfg.allowed, n);
    }
    if Allows(cfg, o) {
      Verdicts.NormalIff(n, cfg.allowed, n);
      assert Yields(cfg, Some(n), None, Some(o));
    }
  }

  /** No run over replies returns `o` from a reply while implement beads are open. */
  ghost predicate NeverLeavesOpen(cfg: Config, o: Outcome) {
    forall obs: seq<Obs> | cfg.maxTurns <= |obs| && Heard(cfg, obs) :: LeavesNoneOpen(cfg, o, obs)
  }

  predicate LeavesNoneOpen(cfg: Config, o: Outcome, obs: seq<Obs>)
    requires cfg.maxTurns <= |obs|
  {
    var r := Loop(cfg, START, obs, 1, 0);
    r.outcome == o && r.exit != AutoDone && 1 <= r.turns <= |obs| ==> obs[r.turns - 1].world.openScoped == Some(0)
  }

  const OPEN_WORLD := World(false, true, Some(1), Some(1), true, true, true)

  function ToolReply(o: Outcome, w: World): Obs {
    Obs(false, false, false, false, true, false, false, Some(o), None,
        false, false, false, false, false, false, false, false, None, w)
  }

  /** A run that returns `completed` with a bead open; some reply starts it if and only if the step allows
      `completed`. */
  lemma {:induction false} CompletedSlipsThrough(cfg: Config, obs: seq<Obs>)
    requires cfg.artifacts == Implementation && cfg.maxTurns >= 1 && cfg.maxTurns <= |obs|
    requires obs[0] == ToolReply(Completed, OPEN_WORLD)
    ensures Loop(cfg, START, obs, 1, 0) == Result(Completed, ToolVerdict, 1, 1)
    ensures Sayable(cfg, obs[0].verdict) <==> Allows(cfg, Completed)
  {
    SayableIff(cfg, Completed);
  }

  lemma {:induction false} UncountedSlipsThrough(cfg: Config, o: Outcome, obs: seq<Obs>)
    requires cfg.artifacts == Implementation && !cfg.counts && SuccessClass(o) && cfg.maxTurns >= 1
    requires cfg.maxTurns <= |obs|
    requires obs[0] == ToolReply(o, OPEN_WORLD)
    ensures Loop(cfg, START, obs, 1, 0) == Result(o, ToolVerdict, 1, 1)
    ensures Sayable(cfg, obs[0].verdict) <==> Allows(cfg, o)
  {
    SayableIff(cfg, o);
  }

  lemma {:induction false} TurnSaid(cfg: Config, st: State, ob: Obs, turn: nat)
    requires cfg.artifacts == Implementation
    ensures var a := Turn(cfg, st, ob, turn);
      a.Stop? && SuccessClass(a.outcome) && a.exit != AutoDone ==> ob.verdict == Some(a.outcome)
  {
  }

  lemma {:induction false} RunSaid(cfg: Config, obs: seq<Obs>)
    requires cfg.artifacts == Implementation && cfg.maxTurns <= |obs|
    ensures var r := Loop(cfg, START, obs, 1, 0);
      SuccessClass(r.outcome) && r.exit != AutoDone ==>
        1 <= r.turns <= |obs| && obs[r.turns - 1].verdict == Some(r.outcome)
  {
    var r := Loop(cfg, START, obs, 1, 0);
    var last := LoopEnds(cfg, START, obs, 1, 0);
    if r.exit != Exhausted {
      TurnSaid(cfg, last, obs[r.turns - 1], r.turns);
    }
  }

  lemma {:induction false} SafeRun(cfg: Config, o: Outcome, obs: seq<Obs>)
    requires cfg.artifacts == Implementation && SuccessClass(o) && cfg.maxTurns <= |obs| && Heard(cfg, obs)
    requires (cfg.counts && Gated(o)) || !Allows(cfg, o)
    ensures LeavesNoneOpen(cfg, o, obs)
  {
    if Allows(cfg, o) {
      SuccessWasAccepted(cfg, obs);
    } else {
      RunSaid(cfg, obs);
      SayableIff(cfg, o);
    }
  }

  lemma {:induction false} OpenRun(cfg: Config, o: Outcome, obs: seq<Obs>)
    requires cfg.artifacts == Implementation && cfg.maxTurns >= 1 && SuccessClass(o) && (!cfg.counts || !Gated(o))
    requires cfg.maxTurns <= |obs| && obs[0] == ToolReply(o, OPEN_WORLD)
    ensures !LeavesNoneOpen(cfg, o, obs)
  {
    if cfg.counts {
      CompletedSlipsThrough(cfg, obs);
    } else {
      UncountedSlipsThrough(cfg, o, obs);
    }
  }

  /** With implementation artifacts, a success-class verdict is safe from open beads exactly when beads can be
      counted, by a title filter or required files, and the verdict is one of the outcomes that validation looks at,
      which `completed` is not; or when the step does not allow the verdict at all. */
  lemma {:induction false} OpenBeadGateIff(cfg: Config, o: Outcome)
    requires cfg.artifacts == Implementation && cfg.maxTurns >= 1 && SuccessClass(o)
    ensures NeverLeavesOpen(cfg, o) <==> (cfg.counts && Gated(o)) || !Allows(cfg, o)
  {
    if (cfg.counts && Gated(o)) || !Allows(cfg, o) {
      forall obs: seq<Obs> | cfg.maxTurns <= |obs| && Heard(cfg, obs) ensures LeavesNoneOpen(cfg, o, obs) {
        SafeRun(cfg, o, obs);
      }
    } else {
      var obs := seq(cfg.maxTurns, _ => ToolReply(o, OPEN_WORLD));
      OpenRun(cfg, o, obs);
      SayableIff(cfg, o);
      assert Heard(cfg, obs);
    }
  }

  /** A verdict sent without commands in the implementation state also passed the bead count over all phases,
      or that count could not be taken. */
  lemma {:induction false} JsonVerdictCounted(cfg: Config, obs: seq<Obs>)
    requires cfg.maxTurns <= |obs| && cfg.implementationState && cfg.counts
    ensures var r := Loop(cfg, START, obs, 1, 0);
      r.exit == JsonVerdict && SuccessClass(r.outcome) ==>
        1 <= r.turns <= cfg.maxTurns &&
          (obs[r.turns - 1].world.openAll == None || obs[r.turns - 1].world.openAll == Some(0))
  {
    var r := Loop(cfg, START, obs, 1, 0);
    var last := LoopEnds(cfg, START, obs, 1, 0);
    if r.exit == JsonVerdict {
      TurnCounted(cfg, last, obs[r.turns - 1], r.turns);
    }
  }

  lemma {:induction false} TurnCounted(cfg: Config, st: State, ob: Obs, turn: nat)
    requires cfg.implementationState
    ensures var a := Turn(cfg, st, ob, turn);
      a.Stop? && a.exit == JsonVerdict && SuccessClass(a.outcome) ==> OpenCount(cfg, ob.world) == 0
  {
  }

  /*** The states of a run ***/

  /** The counters after `k` turns, if the run gets that far. */
  function After(cfg: Config, obs: seq<Obs>, k: nat): Option<State>
    requires k <= cfg.maxTurns <= |obs|
  {
    if k == 0 then Some(START)
    else match After(cfg, obs, k - 1)
      case None => None
      case Some(st) =>
        match Turn(cfg, st, obs[k - 1], k)
        case Stop(_, _) => None
        case Go(next) => Some(next)
  }

  /** The run ends in turn `t` through `exit`. */
  predicate EndsAt(cfg: Config, obs: seq<Obs>, t: nat, exit: Exit)
    requires 1 <= t <= cfg.maxTurns <= |obs|
  {
    var st := After(cfg, obs, t - 1);
    st.Some? && Turn(cfg, st.value, obs[t - 1], t).Stop? && Turn(cfg, st.value, obs[t - 1], t).exit == exit
  }

  lemma {:induction false} LoopFrom(cfg: Config, obs: seq<Obs>, k: nat, st: State, requests: nat)
    requires k <= cfg.maxTurns <= |obs| && After(cfg, obs, k) == Some(st)
    ensures var r := Loop(cfg, st, obs, k + 1, requests);
      r.exit != Exhausted ==> k < r.turns <= cfg.maxTurns && EndsAt(cfg, obs, r.turns, r.exit)
    decreases cfg.maxTurns - k
  {
    if k >= cfg.maxTurns {
    } else {
      var ob := obs[k];
      var sent := if Cut(ob) then requests else requests + 1;
      match Turn(cfg, st, ob, k + 1)
      case Stop(_, exit) => assert EndsAt(cfg, obs, k + 1, exit);
      case Go(next) => LoopFrom(cfg, obs, k + 1, next, sent);
    }
  }

  lemma {:induction false} LoopGoes(cfg: Config, obs: seq<Obs>, k: nat, st: State, requests: nat)
      returns (next: State, sent: nat)
    requires k < cfg.maxTurns <= |obs| && After(cfg, obs, k) == Some(st) && After(cfg, obs, k + 1).Some?
    ensures After(cfg, obs, k + 1) == Some(next) &&
      Loop(cfg, st, obs, k + 1, requests) == Loop(cfg, next, obs, k + 2, sent)
  {
    next := After(cfg, obs, k + 1).value;
    sent := requests + 1;
    assert Turn(cfg, st, obs[k], k + 1) == Go(next);
  }

  lemma {:induction false} LoopStops(cfg: Config, obs: seq<Obs>, t: nat, exit: Exit, st: State, requests: nat)
    requires 1 <= t <= cfg.maxTurns <= |obs| && After(cfg, obs, t - 1) == Some(st) && EndsAt(cfg, obs, t, exit)
    ensures var r := Loop(cfg, st, obs, t, requests); r.turns == t && r.exit == exit
  {
    assert Turn(cfg, st, obs[t - 1], t).Stop?;
  }

  lemma {:induction false} LoopReaches(cfg: Config, obs: seq<Obs>, t: nat, exit: Exit, k: nat, st: State, requests: nat)
    requires k < t <= cfg.maxTurns <= |obs| && After(cfg, obs, k) == Some(st) && After(cfg, obs, t - 1).Some?
    requires EndsAt(cfg, obs, t, exit)
    ensures var r := Loop(cfg, st, obs, k + 1, requests); r.turns == t && r.exit == exit
    decreases t - k
  {
    if k + 1 == t {
      LoopStops(cfg, obs, t, exit, st, requests);
    } else {
      AfterBefore(cfg, obs, k + 1, t - 1);
      var next, sent := LoopGoes(cfg, obs, k, st, requests);
      LoopReaches(cfg, obs, t, exit, k + 1, next, sent);
    }
  }

  lemma {:induction false} AfterBefore(cfg: Config, obs: seq<Obs>, j: nat, k: nat)
    requires j <= k <= cfg.maxTurns <= |obs| && After(cfg, obs, k).Some?
    ensures After(cfg, obs, j).Some?
    decreases k
  {
    if j >= k {
    } else {
      AfterBefore(cfg, obs, j, k - 1);
    }
  }

  /** Ending at a turn, seen from the counters and seen from the loop, is the same thing. */
  lemma {:induction false} EndsIff(cfg: Config, obs: seq<Obs>, t: nat, exit: Exit)
    requires 1 <= t <= cfg.maxTurns <= |obs| && exit != Exhausted
    ensures EndsAt(cfg, obs, t, exit) <==> var r := Loop(cfg, START, obs, 1, 0); r.turns == t && r.exit == exit
  {
    LoopFrom(cfg, obs, 0, START, 0);
    if EndsAt(cfg, obs, t, exit) {
      LoopReaches(cfg, obs, t, exit, 0, START, 0);
    }
  }

  /*** Prose-only turns ***/

  predicate Replied(ob: Obs) {
    !Cut(ob) && !ob.llmError
  }

  predicate IsTools(ob: Obs) {
    Replied(ob) && ob.tools
  }

  predicate IsProse(ob: Obs) {
    Replied(ob) && !ob.tools && !ob.truncated && ob.verdict.None? && !ob.blank
  }

  /** Prose-only turns since the last turn with tools. */
  function ProseStreak(obs: seq<Obs>, k: nat): nat
    requires k <= |obs|
  {
    if k == 0 || IsTools(obs[k - 1]) then 0
    else ProseStreak(obs, k - 1) + (if IsProse(obs[k - 1]) then 1 else 0)
  }

  lemma {:induction false} ProseCounted(cfg: Config, obs: seq<Obs>, k: nat)
    requires k <= cfg.maxTurns <= |obs| && After(cfg, obs, k).Some?
    ensures After(cfg, obs, k).value.nonTerminal == ProseStreak(obs, k) < ProseThreshold(cfg)
  {
    if k == 0 {
    } else {
      ProseCounted(cfg, obs, k - 1);
    }
  }

  /** The run ends in the prose breaker at turn `t` exactly when it gets there and the streak reaches the limit. */
  lemma {:induction false} ProseBreakerIff(cfg: Config, obs: seq<Obs>, t: nat)
    requires 1 <= t <= cfg.maxTurns <= |obs| && After(cfg, obs, t - 1).Some?
    ensures EndsAt(cfg, obs, t, ProseBreaker) <==> IsProse(obs[t - 1]) && ProseStreak(obs, t) == ProseThreshold(cfg)
  {
    ProseCounted(cfg, obs, t - 1);
  }

  /*** Verdicts refused ***/

  predicate ToolsBefore(obs: seq<Obs>, k: nat)
    requires k <= |obs|
  {
    exists j :: 0 <= j < k && IsTools(obs[j])
  }

  predicate IsVerdict(ob: Obs) {
    Replied(ob) && !ob.tools && !ob.truncated && ob.verdict.Some?
  }

  /** A verdict that gets past the guards in front of the completion checks. */
  predicate Examined(cfg: Config, obs: seq<Obs>, k: nat)
    requires 1 <= k <= |obs|
  {
    var ob := obs[k - 1];
    && IsVerdict(ob) && !TurnedDown(ob)
    && (cfg.cmdNudge ==> ToolsBefore(obs, k - 1))
    && !(FailureClass(ob.verdict.value) && cfg.artifacts == Planning && Accepts(cfg, ob.world, Success))
    && !FlipsPlanReview(cfg, ob, ob.verdict.value)
  }

  predicate RejectedOpen(cfg: Config, obs: seq<Obs>, k: nat)
    requires 1 <= k <= |obs|
  {
    Examined(cfg, obs, k) && !(obs[k - 1].premature && cfg.implementationState) &&
      RefusesOpenBeads(cfg, obs[k - 1], obs[k - 1].verdict.value)
  }

  predicate RejectedPremature(cfg: Config, obs: seq<Obs>, k: nat)
    requires 1 <= k <= |obs|
  {
    Examined(cfg, obs, k) && obs[k - 1].premature && cfg.implementationState
  }

  /** All success verdicts refused over open beads so far, in a row or not. */
  function OpenRefusals(cfg: Config, obs: seq<Obs>, k: nat): nat
    requires k <= |obs|
  {
    if k == 0 then 0 else OpenRefusals(cfg, obs, k - 1) + (if RejectedOpen(cfg, obs, k) then 1 else 0)
  }

  lemma {:induction false} QaCounted(cfg: Config, obs: seq<Obs>, k: nat)
    requires k <= cfg.maxTurns <= |obs| && After(cfg, obs, k).Some?
    ensures After(cfg, obs, k).value.qaRan <==> ToolsBefore(obs, k)
  {
    if k == 0 {
    } else {
      QaCounted(cfg, obs, k - 1);
      if ToolsBefore(obs, k - 1) {
        var j :| 0 <= j < k - 1 && IsTools(obs[j]);
      }
      if IsTools(obs[k - 1]) {
        assert ToolsBefore(obs, k);
      }
    }
  }

  lemma {:induction false} OpenCounted(cfg: Config, obs: seq<Obs>, k: nat)
    requires k <= cfg.maxTurns <= |obs| && After(cfg, obs, k).Some?
    ensures After(cfg, obs, k).value.openRejects == OpenRefusals(cfg, obs, k) < OPEN_BEAD_THRESHOLD
  {
    if k == 0 {
    } else {
      OpenCounted(cfg, obs, k - 1);
      QaCounted(cfg, obs, k - 1);
    }
  }

  /** The open-bead breaker fires at the fifth refusal of the attempt. The refusals need not be consecutive. */
  lemma {:induction false} OpenBeadBreakerIff(cfg: Config, obs: seq<Obs>, t: nat)
    requires 1 <= t <= cfg.maxTurns <= |obs| && After(cfg, obs, t - 1).Some?
    ensures EndsAt(cfg, obs, t, OpenBeadBreaker) <==>
      RejectedOpen(cfg, obs, t) && OpenRefusals(cfg, obs, t) == OPEN_BEAD_THRESHOLD
  {
    OpenCounted(cfg, obs, t - 1);
    QaCounted(cfg, obs, t - 1);
  }

  function JsonReply(o: Outcome, w: World): Obs {
    ToolReply(o, w).(tools := false)
  }

  /** Refused verdicts with working turns in between. */
  predicate Alternates(obs: seq<Obs>) {
    forall i :: 0 <= i < |obs| ==>
      obs[i] == if i % 2 == 0 then JsonReply(Success, OPEN_WORLD) else ToolReply(Success, OPEN_WORLD).(verdict := None)
  }

  lemma {:induction false} AlternatingRun(cfg: Config, obs: seq<Obs>, k: nat)
    requires cfg.artifacts == Implementation && cfg.implementationState && cfg.counts && !cfg.cmdNudge
    requires 9 <= cfg.maxTurns <= |obs| && Alternates(obs) && k <= 8
    ensures After(cfg, obs, k) == Some(State(k >= 2, 0, (k + 1) / 2, None, 0))
  {
    if k == 0 {
    } else {
      AlternatingRun(cfg, obs, k - 1);
    }
  }

  /** Five refusals, no two of them in a row, trip the breaker all the same. */
  lemma {:induction false} BreakerCountsAllRefusals(cfg: Config, obs: seq<Obs>)
    requires cfg.artifacts == Implementation && cfg.implementationState && cfg.counts && !cfg.cmdNudge
    requires 9 <= cfg.maxTurns <= |obs| && Alternates(obs)
    ensures EndsAt(cfg, obs, 9, OpenBeadBreaker)
  {
    AlternatingRun(cfg, obs, 8);
    assert obs[8] == JsonReply(Success, OPEN_WORLD);
  }

  /*** Completion claims without changed artifacts ***/

  /** The artifact contents at each readable rejection so far. */
  function Readings(cfg: Config, obs: seq<Obs>, k: nat): seq<string>
    requires k <= |obs|
  {
    if k == 0 then []
    else
      Readings(cfg, obs, k - 1) +
      (if RejectedPremature(cfg, obs, k) && cfg.noProgressLimit > 0 && obs[k - 1].contents.Some?
       then [obs[k - 1].contents.value] else [])
  }

  /** The length of the run of equal readings at the end. */
  function Unchanged(xs: seq<string>): nat
    decreases |xs|
  {
    var n := |xs|;
    if n == 0 then 0
    else if n == 1 || xs[n - 2] != xs[n - 1] then 1
    else Unchanged(xs[..n - 1]) + 1
  }

  lemma {:induction false} UnchangedMeaning(xs: seq<string>, n: nat)
    requires n >= 1
    ensures Unchanged(xs) >= n <==> |xs| >= n && forall i :: |xs| - n <= i < |xs| ==> xs[i] == xs[|xs| - 1]
    decreases |xs|
  {
    var m := |xs|;
    if m < 2 || xs[m - 2] != xs[m - 1] || n <= 1 {
    } else {
      var init := xs[..m - 1];
      UnchangedMeaning(init, n - 1);
      assert forall i :: 0 <= i < m - 1 ==> init[i] == xs[i];
      assert (forall i :: m - n <= i < m && m >= n ==> xs[i] == xs[m - 1]) <==>
        (forall i :: m - n <= i < m - 1 && m >= n ==> init[i] == init[m - 2]) by {
        assert init[m - 2] == xs[m - 1];
      }
    }
  }

  predicate Tracks(cfg: Config, st: State, xs: seq<string>) {
    st.rejections == Unchanged(xs) && (if xs == [] then st.seen == None else st.seen == Some(xs[|xs| - 1]))
      && (cfg.noProgressLimit > 0 ==> st.rejections < cfg.noProgressLimit)
  }

  lemma {:induction false} ReadingStep(st: State, xs: seq<string>, x: string)
    requires st.rejections == Unchanged(xs) && (if xs == [] then st.seen == None else st.seen == Some(xs[|xs| - 1]))
    ensures Unchanged(xs + [x]) == (if st.seen == Some(x) then st.rejections + 1 else 1)
  {
    var ys := xs + [x];
    assert ys[..|ys| - 1] == xs;
  }

  /** Only an examined, premature verdict moves the rejection count. */
  predicate CountsRejection(cfg: Config, st: State, ob: Obs) {
    && IsVerdict(ob) && !TurnedDown(ob) && (cfg.cmdNudge ==> st.qaRan) && ob.premature && cfg.implementationState
    && !(FailureClass(ob.verdict.value) && cfg.artifacts == Planning && Accepts(cfg, ob.world, Success))
    && !FlipsPlanReview(cfg, ob, ob.verdict.value)
  }

  lemma {:induction false} TurnRejections(cfg: Config, st: State, ob: Obs, turn: nat, next: State)
    requires Turn(cfg, st, ob, turn) == Go(next)
    ensures CountsRejection(cfg, st, ob) ==> CountRejection(cfg, st, ob.contents) == Rejection(next, false)
    ensures !CountsRejection(cfg, st, ob) ==> next.seen == st.seen && next.rejections == st.rejections
  {
  }

  lemma {:induction false} TracksStep(cfg: Config, st: State, ob: Obs, next: State, xs: seq<string>)
    requires Tracks(cfg, st, xs)
    requires CountsRejection(cfg, st, ob) ==> CountRejection(cfg, st, ob.contents) == Rejection(next, false)
    requires !CountsRejection(cfg, st, ob) ==> next.seen == st.seen && next.rejections == st.rejections
    ensures Tracks(cfg, next, xs +
      (if CountsRejection(cfg, st, ob) && cfg.noProgressLimit > 0 && ob.contents.Some? then [ob.contents.value]
        else []))
  {
    if CountsRejection(cfg, st, ob) && cfg.noProgressLimit > 0 && ob.contents.Some? {
      ReadingStep(st, xs, ob.contents.value);
    } else {
      assert xs + [] == xs;
    }
  }

  lemma {:induction false} RejectionsTracked(cfg: Config, obs: seq<Obs>, k: nat)
    requires k <= cfg.maxTurns <= |obs| && After(cfg, obs, k).Some?
    ensures Tracks(cfg, After(cfg, obs, k).value, Readings(cfg, obs, k))
  {
    if k == 0 {
    } else {
      RejectionsTracked(cfg, obs, k - 1);
      QaCounted(cfg, obs, k - 1);
      var st, next := After(cfg, obs, k - 1).value, After(cfg, obs, k).value;
      TurnRejections(cfg, st, obs[k - 1], k, next);
      assert CountsRejection(cfg, st, obs[k - 1]) == RejectedPremature(cfg, obs, k);
      TracksStep(cfg, st, obs[k - 1], next, Readings(cfg, obs, k - 1));
    }
  }

  /** The no-progress breaker fires exactly when a readable rejection makes the last `limit` readings equal. */
  lemma {:induction false} NoProgressIff(cfg: Config, obs: seq<Obs>, t: nat)
    requires 1 <= t <= cfg.maxTurns <= |obs| && After(cfg, obs, t - 1).Some?
    ensures EndsAt(cfg, obs, t, NoProgress) <==>
      && RejectedPremature(cfg, obs, t) && obs[t - 1].contents.Some? && cfg.noProgressLimit > 0
      && Unchanged(Readings(cfg, obs, t)) == cfg.noProgressLimit
  {
    RejectionsTracked(cfg, obs, t - 1);
    QaCounted(cfg, obs, t - 1);
    var st := After(cfg, obs, t - 1).value;
    TurnNoProgress(cfg, st, obs[t - 1], t);
    assert CountsRejection(cfg, st, obs[t - 1]) == RejectedPremature(cfg, obs, t);
    LimitReached(cfg, st, obs[t - 1].contents, Readings(cfg, obs, t - 1));
  }

  lemma {:induction false} TurnNoProgress(cfg: Config, st: State, ob: Obs, turn: nat)
    ensures var a := Turn(cfg, st, ob, turn);
      a.Stop? && a.exit == NoProgress <==> CountsRejection(cfg, st, ob) && CountRejection(cfg, st, ob.contents).reached
  {
  }

  lemma {:induction false} LimitReached(cfg: Config, st: State, contents: Option<string>, xs: seq<string>)
    requires Tracks(cfg, st, xs)
    ensures CountRejection(cfg, st, contents).reached <==>
      contents.Some? && cfg.noProgressLimit > 0 && Unchanged(xs + [contents.value]) == cfg.noProgressLimit
  {
    if contents.Some? {
      ReadingStep(st, xs, contents.value);
    }
  }
}
