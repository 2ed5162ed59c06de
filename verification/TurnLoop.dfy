/** The turn loop of one task attempt (executeOrchestratedTask): requests, verdicts, gates and breakers,
    with the model's replies and the state of the world as given observations. */
module TurnLoop {
  import opened Text

  /** A verdict as normalised against the allowed outcomes; `NoOutcome` is one that is not allowed. */
  datatype Outcome = Success | TaskPassed | AllPassed | Completed | Fail | Failure | Timeout | NoOutcome
      | Other(name: string)

  /** isOrchestratedSuccessOutcome */
  predicate SuccessClass(o: Outcome) {
    o == Success || o == AllPassed || o == TaskPassed || o == Completed
  }

  /** isOrchestratedFailureOutcome */
  predicate FailureClass(o: Outcome) {
    o == Fail || o == Failure
  }

  /** The outcomes for which artifacts are looked at. */
  predicate Gated(o: Outcome) {
    o == Success || o == TaskPassed || o == AllPassed
  }

  datatype Artifacts = Implementation | Design | Planning | PlanReview | OtherArtifacts | NoValidator

  /** What the workflow configures for the step. `counts` says whether open beads can be counted at all:
      a bead title filter or required files are configured. `onTimeout` says whether running out of turns may
      be reported as a timeout. `allowed` lists the outcomes the step allows; an empty list allows all. */
  datatype Config = Config(artifacts: Artifacts, implementationState: bool, explicitOutcome: bool, cmdNudge: bool,
                           counts: bool, onTimeout: bool, noProgressLimit: int, maxTurns: nat, allowed: seq<string>)

  /** What validation finds. A bead count is `None` when listing the beads fails. */
  datatype World = World(infraFailed: bool, doltHealthy: bool, openScoped: Option<nat>, openAll: Option<nat>,
                         restOk: bool, kindOk: bool, hooksOk: bool)

  /** validateImplementationArtifacts: the open-bead gate, then everything else. */
  predicate ImplementationOk(cfg: Config, w: World) {
    (cfg.counts ==> w.openScoped == Some(0)) && w.restOk
  }

  /** validateArtifacts */
  predicate Accepts(cfg: Config, w: World, o: Outcome) {
    && (w.infraFailed && SuccessClass(o) ==> w.doltHealthy)
    && (Gated(o) ==>
          match cfg.artifacts
          case NoValidator => true
          case Implementation => ImplementationOk(cfg, w) && w.hooksOk
          case _ => w.kindOk && w.hooksOk)
  }

  /** openImplementBeadCount: a failed listing counts as none. */
  function OpenCount(cfg: Config, w: World): nat {
    if cfg.counts && w.openAll.Some? then w.openAll.value else 0
  }

  /** One turn as it unfolds: interruptions before the request, the reply, the guards' answers, the world. */
  datatype Obs = Obs(paused: bool, batchReady: bool, beadStop: bool, llmError: bool,
                     tools: bool, truncated: bool, blank: bool, verdict: Option<Outcome>, auto: Option<Outcome>,
                     designWritten: bool, noOp: bool, summaryBad: bool, spurious: bool, falseInfra: bool, noDisk: bool,
                     premature: bool, qaObjection: bool, contents: Option<string>, world: World)

  /** The counters an attempt carries from turn to turn. */
  datatype State = State(qaRan: bool, nonTerminal: nat, openRejects: nat, seen: Option<string>, rejections: nat)

  const START := State(false, 0, 0, None, 0)

  datatype Exit = Interrupted | DesignDone | ToolVerdict | AutoDone | PlanFlip | JsonVerdict | EarlyFailure
                | NoProgress | OpenBeadBreaker | ProseBreaker | Exhausted

  datatype Action = Go(next: State) | Stop(outcome: Outcome, exit: Exit)

  const OPEN_BEAD_THRESHOLD := 5

  function ProseThreshold(cfg: Config): nat {
    if cfg.implementationState then 8 else 4
  }

  /*** completionRejectionLimitReached ***/

  datatype Rejection = Rejection(next: State, reached: bool)

  function CountRejection(cfg: Config, st: State, contents: Option<string>): Rejection {
    if cfg.noProgressLimit <= 0 || contents.None? then Rejection(st, false)
    else
      var n := if st.seen == contents then st.rejections + 1 else 1;
      Rejection(st.(seen := contents, rejections := n), n >= cfg.noProgressLimit)
  }

  /*** A turn with commands or native edits ***/

  function ToolsVerdict(cfg: Config, ob: Obs, turn: nat): Option<Action> {
    if ob.verdict.None? || ob.noOp then None
    else
      var o := ob.verdict.value;
      if FailureClass(o) && turn < cfg.maxTurns then
        if (turn <= 3 || cfg.artifacts == Implementation) && !cfg.explicitOutcome then None
          else Some(Stop(o, EarlyFailure))
      else if o == NoOutcome || ob.summaryBad || !Accepts(cfg, ob.world, o) then None
      else Some(Stop(o, ToolVerdict))
  }

  function ToolsTurn(cfg: Config, st: State, ob: Obs, turn: nat): Action {
    var next := st.(qaRan := true, nonTerminal := 0);
    if cfg.artifacts == Design && ob.designWritten && Accepts(cfg, ob.world, Success) then Stop(Success, DesignDone)
    else match ToolsVerdict(cfg, ob, turn)
      case Some(a) => a
      case None => if ob.auto.Some? && !cfg.explicitOutcome then Stop(ob.auto.value, AutoDone) else Go(next)
  }

  /*** A turn with a verdict only ***/

  predicate TurnedDown(ob: Obs) {
    ob.spurious || ob.summaryBad || ob.falseInfra || ob.noOp || ob.noDisk
  }

  predicate FlipsPlanReview(cfg: Config, ob: Obs, o: Outcome) {
    !cfg.explicitOutcome && cfg.artifacts == PlanReview && FailureClass(o) && Accepts(cfg, ob.world, Success)
  }

  function JsonTurn(cfg: Config, st: State, ob: Obs, o: Outcome): Action {
    if !st.qaRan && cfg.cmdNudge then Go(st)
    else if FailureClass(o) && cfg.artifacts == Planning && Accepts(cfg, ob.world, Success) then Go(st)
    else if FlipsPlanReview(cfg, ob, o) then Stop(Success, PlanFlip)
    else if TurnedDown(ob) then Go(st)
    else if ob.premature && cfg.implementationState then
      var r := CountRejection(cfg, st, ob.contents);
      if r.reached then Stop(Fail, NoProgress) else Go(r.next)
    else if RefusesOpenBeads(cfg, ob, o) then
      if st.openRejects + 1 >= OPEN_BEAD_THRESHOLD then Stop(Fail, OpenBeadBreaker)
        else Go(st.(openRejects := st.openRejects + 1))
    else if ob.qaObjection || !Accepts(cfg, ob.world, o) then Go(st)
    else Stop(o, JsonVerdict)
  }

  /** rejectImplementationOpenBeadsSuccess */
  predicate RefusesOpenBeads(cfg: Config, ob: Obs, o: Outcome) {
    cfg.implementationState && SuccessClass(o) && OpenCount(cfg, ob.world) > 0
  }

  /** A turn with neither: a blank reply changes nothing, prose counts towards a breaker. */
  function ProseTurn(cfg: Config, st: State, ob: Obs): Action {
    if ob.blank then Go(st)
    else if st.nonTerminal + 1 >= ProseThreshold(cfg) then Stop(Fail, ProseBreaker)
    else Go(st.(nonTerminal := st.nonTerminal + 1))
  }

  /*** The loop ***/

  /** The turn ends before any request goes out. */
  predicate Cut(ob: Obs) {
    ob.paused || ob.batchReady || ob.beadStop
  }

  function Turn(cfg: Config, st: State, ob: Obs, turn: nat): Action {
    if Cut(ob) || ob.llmError then
      Stop(if !ob.paused && ob.batchReady then Timeout else if !Cut(ob) then Fail else Failure, Interrupted)
    else if ob.truncated && !ob.tools then Go(st)
    else if ob.tools then ToolsTurn(cfg, st, ob, turn)
    else if ob.verdict.Some? then JsonTurn(cfg, st, ob, ob.verdict.value)
    else ProseTurn(cfg, st, ob)
  }

  /** `turns` is the number of the last turn entered, `requests` the requests sent. */
  datatype Result = Result(outcome: Outcome, exit: Exit, turns: nat, requests: nat)

  function Loop(cfg: Config, st: State, obs: seq<Obs>, turn: nat, requests: nat): Result
    requires 1 <= turn && cfg.maxTurns <= |obs|
    decreases cfg.maxTurns + 1 - turn
  {
    if turn > cfg.maxTurns then Result(if cfg.onTimeout then Timeout else Fail, Exhausted, cfg.maxTurns, requests)
    else
      var ob := obs[turn - 1];
      var sent := if Cut(ob) then requests else requests + 1;
      match Turn(cfg, st, ob, turn)
      case Stop(o, exit) => Result(o, exit, turn, sent)
      case Go(next) => Loop(cfg, next, obs, turn + 1, sent)
  }

  class Runner {
    var qaRan: bool
    var consecutiveNonTerminal: nat
    var openBeadRejects: nat
    var fingerprint: Option<string>
    var rejections: nat

    constructor ()
      ensures St() == START
    {
      qaRan, consecutiveNonTerminal, openBeadRejects, fingerprint, rejections := false, 0, 0, None, 0;
    }

    ghost function St(): State
      reads this
    {
      State(qaRan, consecutiveNonTerminal, openBeadRejects, fingerprint, rejections)
    }

    method CompletionRejectionLimitReached(cfg: Config, contents: Option<string>) returns (reached: bool)
      modifies this
      ensures Rejection(St(), reached) == CountRejection(cfg, old(St()), contents)
    {
      if cfg.noProgressLimit <= 0 || contents.None? {
        return false;
      }
      if fingerprint != contents {
        fingerprint, rejections := contents, 0;
      }
      rejections := rejections + 1;
      return rejections >= cfg.noProgressLimit;
    }

    method HandleJson(cfg: Config, ob: Obs, o: Outcome) returns (stop: Option<Action>)
      modifies this
      ensures match JsonTurn(cfg, old(St()), ob, o)
        case Go(next) => stop == None && St() == next
        case Stop(_, _) => stop == Some(JsonTurn(cfg, old(St()), ob, o))
    {
      if !qaRan && cfg.cmdNudge {
        return None;
      }
      if FailureClass(o) && cfg.artifacts == Planning && Accepts(cfg, ob.world, Success) {
        return None;
      }
      if FlipsPlanReview(cfg, ob, o) {
        return Some(Stop(Success, PlanFlip));
      }
      if TurnedDown(ob) {
        return None;
      }
      if ob.premature && cfg.implementationState {
        var reached := CompletionRejectionLimitReached(cfg, ob.contents);
        return if reached then Some(Stop(Fail, NoProgress)) else None;
      }
      if RefusesOpenBeads(cfg, ob, o) {
        openBeadRejects := openBeadRejects + 1;
        return if openBeadRejects >= OPEN_BEAD_THRESHOLD then Some(Stop(Fail, OpenBeadBreaker)) else None;
      }
      if ob.qaObjection || !Accepts(cfg, ob.world, o) {
        return None;
      }
      return Some(Stop(o, JsonVerdict));
    }

    method HandleTools(cfg: Config, ob: Obs, turn: nat) returns (stop: Option<Action>)
      modifies this
      ensures match ToolsTurn(cfg, old(St()), ob, turn)
        case Go(next) => stop == None && St() == next
        case Stop(_, _) => stop == Some(ToolsTurn(cfg, old(St()), ob, turn))
    {
      consecutiveNonTerminal := 0;
      qaRan := true;
      if cfg.artifacts == Design && ob.designWritten && Accepts(cfg, ob.world, Success) {
        return Some(Stop(Success, DesignDone));
      }
      var verdict := ToolsVerdict(cfg, ob, turn);
      if verdict.Some? {
        return verdict;
      }
      if ob.auto.Some? && !cfg.explicitOutcome {
        return Some(Stop(ob.auto.value, AutoDone));
      }
      return None;
    }

    method HandleProse(cfg: Config, ob: Obs) returns (stop: Option<Action>)
      modifies this
      ensures match ProseTurn(cfg, old(St()), ob)
        case Go(next) => stop == None && St() == next
        case Stop(_, _) => stop == Some(ProseTurn(cfg, old(St()), ob))
    {
      if ob.blank {
        return None;
      }
      consecutiveNonTerminal := consecutiveNonTerminal + 1;
      if consecutiveNonTerminal >= ProseThreshold(cfg) {
        return Some(Stop(Fail, ProseBreaker));
      }
      return None;
    }

    method Execute(cfg: Config, obs: seq<Obs>) returns (r: Result)
      requires St() == START && cfg.maxTurns <= |obs|
      modifies this
      ensures r == Loop(cfg, START, obs, 1, 0)
    {
      var requests := 0;
      for turn := 1 to cfg.maxTurns + 1
        invariant Loop(cfg, St(), obs, turn, requests) == Loop(cfg, START, obs, 1, 0)
      {
        var ob := obs[turn - 1];
        if ob.paused {
          return Result(Failure, Interrupted, turn, requests);
        }
        if ob.batchReady {
          return Result(Timeout, Interrupted, turn, requests);
        }
        if ob.beadStop {
          return Result(Failure, Interrupted, turn, requests);
        }
        requests := requests + 1;
        if ob.llmError {
          return Result(Fail, Interrupted, turn, requests);
        }
        if ob.truncated && !ob.tools {
          continue;
        }
        var stop: Option<Action>;
        if ob.tools {
          stop := HandleTools(cfg, ob, turn);
        } else if ob.verdict.Some? {
          stop := HandleJson(cfg, ob, ob.verdict.value);
        } else {
          stop := HandleProse(cfg, ob);
        }
        if stop.Some? {
          return Result(stop.value.outcome, stop.value.exit, turn, requests);
        }
      }
      return Result(if cfg.onTimeout then Timeout else Fail, Exhausted, cfg.maxTurns, requests);
    }
  }
}
