/** Durable per-bead turn counting: the progress record, its saves and losses, and the requests made
    over any interleaving of turns, failed saves, crashes and restarts. */
module BeadTurns {
  import opened Text

  const DEFAULT_LIMIT := 40

  /** The part of the implementation progress record that counts turns. */
  datatype Record = Record(turns: map<string, nat>, limit: int)

  function Turns(r: Record, bead: string): nat {
    if bead in r.turns then r.turns[bead] else 0
  }

  function Effective(limit: int): nat {
    if limit <= 0 then DEFAULT_LIMIT else limit
  }

  const NEW_RECORD := Record(map[], DEFAULT_LIMIT)

  /*** One process: addBeadTurn, initImplementationProgress, persistImplementationProgress ***/

  datatype Counted = Counted(mem: Option<Record>, disk: Option<Record>, stop: bool)

  /** The count goes up in memory, then to disk; a failed save or a count over the limit stops the attempt. */
  function AddTurn(mem: Option<Record>, disk: Option<Record>, bead: string, saved: bool): Counted {
    if mem.None? || bead == "" then Counted(mem, disk, false)
    else
      var r := Record(mem.value.turns[bead := Turns(mem.value, bead) + 1], Effective(mem.value.limit));
      if saved then Counted(Some(r), Some(r), Turns(r, bead) > r.limit) else Counted(Some(r), disk, true)
  }

  /** Loading gives the stored record, or a new one when there is none, it cannot be read, or it belongs elsewhere. */
  function Load(disk: Option<Record>, found: bool): Record {
    if disk.Some? && found then disk.value else NEW_RECORD
  }

  class StateRunner {
    var progress: Option<Record>
    var disk: Option<Record>

    method AddBeadTurn(bead: string, saveSucceeds: bool) returns (stop: bool)
      modifies this
      ensures Counted(progress, disk, stop) == AddTurn(old(progress), old(disk), bead, saveSucceeds)
    {
      if progress.None? || bead == "" {
        return false;
      }
      var p := progress.value;
      if p.limit <= 0 {
        p := p.(limit := DEFAULT_LIMIT);
      }
      p := p.(turns := p.turns[bead := Turns(p, bead) + 1]);
      progress := Some(p);
      if !saveSucceeds {
        return true;
      }
      disk := Some(p);
      return Turns(p, bead) > p.limit;
    }

    method InitImplementationProgress(found: bool)
      modifies this
      ensures progress == Some(Load(old(disk), found)) && disk == old(disk)
    {
      if disk.Some? && found {
        progress := disk;
      } else {
        progress := Some(Record(map[], DEFAULT_LIMIT));
      }
    }
  }

  /*** Runs ***/

  /** What can happen, in any order. A crash is a restart at any point. */
  datatype Event =
    | Turn(bead: string, saved: bool)
    | Save(succeeds: bool)
    | Restart(found: bool)
    | Clear

  /** `asked` counts the requests made while each bead was active; `losses` counts the times a stored
      record was removed, or passed over at a restart. */
  datatype State = State(mem: Option<Record>, disk: Option<Record>, asked: map<string, nat>, losses: nat)

  function Asked(s: State, bead: string): nat {
    if bead in s.asked then s.asked[bead] else 0
  }

  function Step(s: State, e: Event): State {
    match e
    case Turn(bead, saved) =>
      var c := AddTurn(s.mem, s.disk, bead, saved);
      State(c.mem, c.disk, if c.stop || bead == "" then s.asked else s.asked[bead := Asked(s, bead) + 1], s.losses)
    case Save(succeeds) =>
      if succeeds && s.mem.Some? then s.(disk := s.mem) else s
    case Restart(found) =>
      State(Some(Load(s.disk, found)), s.disk, s.asked, if s.disk.Some? && !found then s.losses + 1 else s.losses)
    case Clear =>
      s.(disk := None, losses := if s.disk.Some? then s.losses + 1 else s.losses)
  }

  function Run(s: State, es: seq<Event>): State
    decreases |es|
  {
    if es == [] then s else Run(Step(s, es[0]), es[1..])
  }

  /** A fresh process next to whatever record the disk holds. */
  function Start(disk: Option<Record>, found: bool): State {
    Step(State(None, disk, map[], 0), Restart(found))
  }

  function FirstLimit(disk: Option<Record>): nat {
    if disk.Some? then Effective(disk.value.limit) else DEFAULT_LIMIT
  }

  function FirstTurns(disk: Option<Record>, bead: string): nat {
    if disk.Some? then Turns(disk.value, bead) else 0
  }

  /*** Exactly when a bead stays within its limit ***/

  /** The requests that `r` still lets through. */
  function Room(r: Record, bead: string): nat {
    if Turns(r, bead) < Effective(r.limit) then Effective(r.limit) - Turns(r, bead) else 0
  }

  /** The record a restart finds when it loses nothing. */
  function Stored(s: State): Record {
    Load(s.disk, true)
  }

  /** The requests made while the bead was active, and the turns on the first record, are within the first limit. */
  predicate WithinFirst(d0: Option<Record>, s: State, bead: string) {
    Asked(s, bead) > 0 ==> FirstTurns(d0, bead) + Asked(s, bead) <= FirstLimit(d0)
  }

  /** Using up all that `r` lets through would keep it so. */
  predicate Fits(d0: Option<Record>, r: Record, s: State, bead: string) {
    Room(r, bead) > 0 ==> FirstTurns(d0, bead) + Asked(s, bead) + Room(r, bead) <= FirstLimit(d0)
  }

  predicate BothFit(d0: Option<Record>, s: State, bead: string) {
    s.mem.Some? && WithinFirst(d0, s, bead) && Fits(d0, s.mem.value, s, bead) && Fits(d0, Stored(s), s, bead)
  }

  /** However the run goes on without losing a record, the bead stays within its limit. */
  ghost predicate StaysWithin(d0: Option<Record>, s: State, bead: string) {
    forall es :: Run(s, es).losses == s.losses ==> WithinFirst(d0, Run(s, es), bead)
  }

  lemma {:induction false} StepFits(d0: Option<Record>, s: State, e: Event, bead: string)
    requires BothFit(d0, s, bead) && Step(s, e).losses == s.losses
    ensures BothFit(d0, Step(s, e), bead)
  {
    match e
    case Turn(b, _) => TurnFits(d0, s, e, bead);
    case Save(_) =>
    case Restart(_) =>
    case Clear =>
  }

  lemma {:induction false} TurnFits(d0: Option<Record>, s: State, e: Event, bead: string)
    requires BothFit(d0, s, bead) && e.Turn?
    ensures BothFit(d0, Step(s, e), bead)
  {
  }

  lemma {:induction false} StepLosses(s: State, e: Event)
    ensures s.losses <= Step(s, e).losses
  {
  }

  lemma {:induction false} LossesGrow(s: State, es: seq<Event>)
    ensures s.losses <= Run(s, es).losses
    decreases |es|
  {
    if es == [] {
    } else {
      LossesGrow(Step(s, es[0]), es[1..]);
    }
  }

  lemma {:induction false} RunFits(d0: Option<Record>, s: State, es: seq<Event>, bead: string)
    requires BothFit(d0, s, bead) && Run(s, es).losses == s.losses
    ensures WithinFirst(d0, Run(s, es), bead)
    decreases |es|
  {
    if es == [] {
    } else {
      LossesGrow(Step(s, es[0]), es[1..]);
      StepLosses(s, es[0]);
      StepFits(d0, s, es[0], bead);
      RunFits(d0, Step(s, es[0]), es[1..], bead);
    }
  }

  /** Over any interleaving that never loses the record, the requests made while a bead is active, together
      with the turns already on record for it, stay within its limit. */
  lemma {:induction false} RequestsWithinLimit(d0: Option<Record>, found: bool, es: seq<Event>, bead: string)
    requires Run(Start(d0, found), es).losses == 0
    ensures var n := Asked(Run(Start(d0, found), es), bead); n > 0 ==> FirstTurns(d0, bead) + n <= FirstLimit(d0)
  {
    LossesGrow(Start(d0, found), es);
    RunFits(d0, Start(d0, found), es, bead);
  }

  function TurnsOf(bead: string, n: nat): (r: seq<Event>)
    ensures |r| == n
  {
    if n == 0 then [] else TurnsOf(bead, n - 1) + [Turn(bead, true)]
  }

  lemma {:induction false} RunAppend(s: State, a: seq<Event>, b: seq<Event>)
    ensures Run(s, a + b) == Run(Run(s, a), b)
    decreases |a|
  {
    if a == [] {
      assert a + b == b;
    } else {
      assert (a + b)[1..] == a[1..] + b;
      RunAppend(Step(s, a[0]), a[1..], b);
    }
  }

  /** Turns are let through until the record in memory has no room left. */
  lemma {:induction false} UseRoom(s: State, bead: string, n: nat)
    requires bead != "" && s.mem.Some? && n <= Room(s.mem.value, bead)
    ensures var t := Run(s, TurnsOf(bead, n));
      && Asked(t, bead) == Asked(s, bead) + n && t.losses == s.losses && t.mem.Some?
      && Turns(t.mem.value, bead) == Turns(s.mem.value, bead) + n
      && Effective(t.mem.value.limit) == Effective(s.mem.value.limit) && (n > 0 ==> t.disk == t.mem)
    decreases n
  {
    if n == 0 {
    } else {
      UseRoom(s, bead, n - 1);
      RunAppend(s, TurnsOf(bead, n - 1), [Turn(bead, true)]);
      var t := Run(s, TurnsOf(bead, n - 1));
      assert [Turn(bead, true)][1..] == [];
      assert Run(t, [Turn(bead, true)]) == Step(t, Turn(bead, true));
    }
  }

  lemma {:induction false} MemoryFits(d0: Option<Record>, s: State, bead: string)
    requires bead != "" && s.mem.Some? && StaysWithin(d0, s, bead)
    ensures Fits(d0, s.mem.value, s, bead)
  {
    UseRoom(s, bead, Room(s.mem.value, bead));
  }

  lemma {:induction false} StoredFits(d0: Option<Record>, s: State, bead: string)
    requires bead != "" && StaysWithin(d0, s, bead)
    ensures Fits(d0, Stored(s), s, bead)
  {
    var r := [Restart(true)];
    var t := Step(s, r[0]);
    assert r[1..] == [] && Run(s, r) == t;
    forall es | Run(t, es).losses == t.losses ensures WithinFirst(d0, Run(t, es), bead) {
      RunAppend(s, r, es);
    }
    MemoryFits(d0, t, bead);
  }

  /** Wherever a run has got to, the bead stays within its first limit until the next loss if and only if the requests
      so far do, and neither the record in memory nor the one a restart would find lets too many more through. */
  lemma {:induction false} StaysWithinIff(d0: Option<Record>, s: State, bead: string)
    requires bead != "" && s.mem.Some?
    ensures StaysWithin(d0, s, bead) <==> BothFit(d0, s, bead)
  {
    if BothFit(d0, s, bead) {
      forall es | Run(s, es).losses == s.losses ensures WithinFirst(d0, Run(s, es), bead) {
        RunFits(d0, s, es, bead);
      }
    } else if StaysWithin(d0, s, bead) {
      assert Run(s, []) == s;
      MemoryFits(d0, s, bead);
      StoredFits(d0, s, bead);
    }
  }

  /** A record passed over right at the start does harm exactly when the new one lets more through than the first
      did. */
  lemma {:induction false} LossAtStartIff(d0: Option<Record>, bead: string)
    requires bead != "" && d0.Some?
    ensures StaysWithin(d0, Start(d0, false), bead) <==> FirstTurns(d0, bead) + DEFAULT_LIMIT <= FirstLimit(d0)
  {
    StaysWithinIff(d0, Start(d0, false), bead);
    assert Room(NEW_RECORD, bead) == DEFAULT_LIMIT;
  }

  /*** With losses: the allowance starts over each time ***/

  function Max(a: nat, b: nat): nat {
    if a < b then b else a
  }

  predicate Within(m: nat, r: Record, s: State, bead: string) {
    Asked(s, bead) <= m * s.losses + Turns(r, bead) && Effective(r.limit) <= m
  }

  predicate Bounded(m: nat, s: State, bead: string) {
    && m >= DEFAULT_LIMIT
    && s.mem.Some? && Within(m, s.mem.value, s, bead)
    && (s.disk.Some? ==> Within(m, s.disk.value, s, bead))
    && (s.disk.None? ==> Asked(s, bead) <= m * s.losses)
    && Asked(s, bead) <= m * (s.losses + 1)
  }

  lemma {:induction false} Distribute(m: nat, k: nat)
    ensures m * (k + 1) == m * k + m
  {
  }

  lemma {:induction false} StepBounded(m: nat, s: State, e: Event, bead: string)
    requires Bounded(m, s, bead)
    ensures Bounded(m, Step(s, e), bead)
  {
    Distribute(m, s.losses);
    Distribute(m, s.losses + 1);
    match e
    case Turn(_, _) =>
    case Save(_) =>
    case Restart(_) =>
    case Clear =>
  }

  lemma {:induction false} RunBounded(m: nat, s: State, es: seq<Event>, bead: string)
    requires Bounded(m, s, bead)
    ensures Bounded(m, Run(s, es), bead)
    decreases |es|
  {
    if es == [] {
    } else {
      StepBounded(m, s, es[0], bead);
      RunBounded(m, Step(s, es[0]), es[1..], bead);
    }
  }

  /** Over any run at all, every loss of the record buys at most one more allowance. */
  lemma {:induction false} RequestsWithLosses(d0: Option<Record>, found: bool, es: seq<Event>, bead: string)
    ensures var s := Run(Start(d0, found), es);
      Asked(s, bead) <= Max(DEFAULT_LIMIT, FirstLimit(d0)) * (s.losses + 1)
  {
    var m := Max(DEFAULT_LIMIT, FirstLimit(d0));
    var s := Start(d0, found);
    assert Asked(s, bead) == 0;
    assert m * s.losses >= 0 && m * (s.losses + 1) >= 0;
    RunBounded(m, s, es, bead);
  }

  /*** The bound is reached ***/

  /** `k` losses, each followed by a full allowance of turns. */
  function Relapses(bead: string, k: nat): seq<Event> {
    if k == 0 then TurnsOf(bead, DEFAULT_LIMIT)
      else Relapses(bead, k - 1) + [Restart(false)] + TurnsOf(bead, DEFAULT_LIMIT)
  }

  lemma {:induction false} FullAllowance(s: State, bead: string)
    requires bead != "" && s.mem == Some(NEW_RECORD)
    ensures var t := Run(s, TurnsOf(bead, DEFAULT_LIMIT));
      Asked(t, bead) == Asked(s, bead) + DEFAULT_LIMIT && t.losses == s.losses && t.disk.Some?
  {
    UseRoom(s, bead, DEFAULT_LIMIT);
  }

  /** A record that cannot be read back does reset a bead's allowance: with `k` losses a bead gets
      forty requests `k + 1` times over. */
  lemma {:induction false} LossesResetTheAllowance(bead: string, k: nat)
    requires bead != ""
    ensures var s := Run(Start(None, true), Relapses(bead, k));
      s.losses == k && Asked(s, bead) == DEFAULT_LIMIT * (k + 1) && s.disk.Some?
  {
    if k == 0 {
      FullAllowance(Start(None, true), bead);
    } else {
      LossesResetTheAllowance(bead, k - 1);
      var before := Relapses(bead, k - 1);
      var s := Run(Start(None, true), before);
      RunAppend(Start(None, true), before + [Restart(false)], TurnsOf(bead, DEFAULT_LIMIT));
      RunAppend(Start(None, true), before, [Restart(false)]);
      assert [Restart(false)][1..] == [];
      assert Run(s, [Restart(false)]) == Step(s, Restart(false));
      FullAllowance(Step(s, Restart(false)), bead);
    }
  }
}
