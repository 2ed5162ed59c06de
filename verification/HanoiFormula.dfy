/** The step chain of generate_formula: executing it by closing ready steps, from any crash point. */
module HanoiFormula {
  import opened Text
  import opened Hanoi

  /** A `[[steps]]` entry; `action` is the move its title and description name. */
  datatype Step = Step(id: string, action: Option<Move>, needs: seq<string>)

  function MoveId(i: nat): string {
    "move-" + Itoa(i)
  }

  /** The id of the k-th step of a formula with `total` moves. */
  function IdAt(total: nat, k: nat): string {
    if k == 0 then "setup" else if k <= total then MoveId(k) else "verify"
  }

  function StepAt(moves: seq<Move>, k: nat): Step
    requires k <= |moves| + 1
  {
    if k == 0 then Step("setup", None, [])
    else if k <= |moves| then Step(MoveId(k), Some(moves[k - 1]), [if k == 1 then "setup" else MoveId(k - 1)])
    else Step("verify", None, [MoveId(|moves|)])
  }

  function StepsUpTo(moves: seq<Move>, n: nat): (steps: seq<Step>)
    requires n <= |moves| + 2
    ensures |steps| == n
  {
    if n == 0 then [] else StepsUpTo(moves, n - 1) + [StepAt(moves, n - 1)]
  }

  function Formula(moves: seq<Move>): (steps: seq<Step>)
    ensures |steps| == |moves| + 2
  {
    StepsUpTo(moves, |moves| + 2)
  }

  /** generate_formula: setup, one step per move in a loop, verify. */
  method GenerateFormula(nDisks: nat) returns (steps: seq<Step>)
    requires nDisks >= 1
    ensures steps == Formula(Moves(nDisks, A, C, B))
  {
    var moves := HanoiMoves(nDisks);
    var total := |moves|;
    MovesLength(nDisks, A, C, B);
    PowPositive(nDisks);
    steps := [Step("setup", None, [])];
    assert StepsUpTo(moves, 1) == StepsUpTo(moves, 0) + [StepAt(moves, 0)] == steps;
    var i := 1;
    while i <= total
      invariant 1 <= i <= total + 1 && steps == StepsUpTo(moves, i)
    {
      var prev := if i == 1 then "setup" else "move-" + Itoa(i - 1);
      steps := steps + [Step("move-" + Itoa(i), Some(moves[i - 1]), [prev])];
      i := i + 1;
    }
    steps := steps + [Step("verify", None, ["move-" + Itoa(total)])];
  }

  lemma {:induction false} PowPositive(n: nat)
    requires n >= 1
    ensures Pow2(n) >= 2
  {
    if n <= 1 {
    } else {
      PowPositive(n - 1);
    }
  }

  lemma {:induction false} StepsUpToAt(moves: seq<Move>, n: nat, k: nat)
    requires k < n <= |moves| + 2
    ensures StepsUpTo(moves, n)[k] == StepAt(moves, k)
  {
    if k >= n - 1 {
    } else {
      StepsUpToAt(moves, n - 1, k);
      assert StepsUpTo(moves, n)[k] == StepsUpTo(moves, n - 1)[k];
    }
  }

  /*** Executing a formula ***/

  /** An open step whose prerequisites are all closed. */
  predicate Ready(steps: seq<Step>, closed: set<string>, k: nat) {
    k < |steps| && steps[k].id !in closed && forall i :: 0 <= i < |steps[k].needs| ==> steps[k].needs[i] in closed
  }

  /** The closed ids after closing the steps `order`. */
  function Closed(steps: seq<Step>, order: seq<nat>): set<string>
    requires forall i :: 0 <= i < |order| ==> order[i] < |steps|
  {
    if order == [] then {} else Closed(steps, order[..|order| - 1]) + {steps[order[|order| - 1]].id}
  }

  /** Any execution: each step was ready when it was closed. Nothing but the closed set is remembered,
      so sessions may crash and be replaced anywhere in between. */
  predicate Execution(steps: seq<Step>, order: seq<nat>)
    ensures Execution(steps, order) ==> forall i :: 0 <= i < |order| ==> order[i] < |steps|
  {
    order == [] ||
    (var before := order[..|order| - 1];
     Execution(steps, before) && Ready(steps, Closed(steps, before), order[|order| - 1]))
  }

  function UpTo(k: nat): (r: seq<nat>)
    ensures |r| == k && forall i :: 0 <= i < k ==> r[i] == i
  {
    seq(k, i => i)
  }

  lemma {:induction false} IdsDistinct(total: nat, j: nat, k: nat)
    requires j < k <= total + 1
    ensures IdAt(total, j) != IdAt(total, k)
  {
    assert "setup"[0] == 's' && "verify"[0] == 'v';
    assert k <= total ==> MoveId(k)[0] == 'm';
    assert 1 <= j ==> MoveId(j)[0] == 'm';
    if 1 <= j && k <= total && MoveId(j) == MoveId(k) {
      assert MoveId(j)[5..] == Itoa(j) && MoveId(k)[5..] == Itoa(k);
      ItoaInjective(j, k);
    }
  }

  /** After the first k steps in order, exactly their ids are closed. */
  lemma {:induction false} ClosedPrefix(moves: seq<Move>, k: nat, id: string)
    requires k <= |moves| + 2
    ensures id in Closed(Formula(moves), UpTo(k)) <==> exists j :: 0 <= j < k && IdAt(|moves|, j) == id
  {
    if k == 0 {
    } else {
      ClosedPrefix(moves, k - 1, id);
      ClosedStep(Formula(moves), k);
      FormulaAt(moves, k - 1);
    }
  }

  lemma {:induction false} ClosedStep(steps: seq<Step>, k: nat)
    requires 1 <= k <= |steps|
    ensures Closed(steps, UpTo(k)) == Closed(steps, UpTo(k - 1)) + {steps[k - 1].id}
  {
    assert UpTo(k)[..k - 1] == UpTo(k - 1);
  }

  lemma {:induction false} FormulaAt(moves: seq<Move>, k: nat)
    requires k < |moves| + 2
    ensures Formula(moves)[k] == StepAt(moves, k) && Formula(moves)[k].id == IdAt(|moves|, k)
    ensures k > 0 && |moves| >= 1 ==> Formula(moves)[k].needs == [IdAt(|moves|, k - 1)]
  {
    StepsUpToAt(moves, |moves| + 2, k);
  }

  lemma {:induction false} ClosedExactly(moves: seq<Move>, k: nat, j: nat)
    requires k <= |moves| + 2 && j < |moves| + 2
    ensures IdAt(|moves|, j) in Closed(Formula(moves), UpTo(k)) <==> j < k
  {
    ClosedPrefix(moves, k, IdAt(|moves|, j));
    if j >= k && IdAt(|moves|, j) in Closed(Formula(moves), UpTo(k)) {
      var i :| 0 <= i < k && IdAt(|moves|, i) == IdAt(|moves|, j);
      IdsDistinct(|moves|, i, j);
    }
  }

  /** With the first k steps closed, step k is the only ready one. */
  lemma {:induction false} OnlyNextReady(moves: seq<Move>, k: nat, j: nat)
    requires |moves| >= 1 && k <= |moves| + 2
    ensures Ready(Formula(moves), Closed(Formula(moves), UpTo(k)), j) <==> j == k < |moves| + 2
  {
    if j < |moves| + 2 {
      FormulaAt(moves, j);
      ClosedExactly(moves, k, j);
      if j > 0 {
        ClosedExactly(moves, k, j - 1);
        assert Formula(moves)[j].needs[0] == IdAt(|moves|, j - 1);
      }
    }
  }

  /** Every execution closes the steps in the emitted order, so the closed steps always form a prefix
      of the chain. */
  lemma {:induction false} ExecutionsFollowChain(moves: seq<Move>, order: seq<nat>)
    requires |moves| >= 1 && Execution(Formula(moves), order)
    ensures order == UpTo(|order|) && |order| <= |moves| + 2
  {
    if order == [] {
    } else {
      var before, last := order[..|order| - 1], order[|order| - 1];
      ExecutionsFollowChain(moves, before);
      OnlyNextReady(moves, |before|, last);
      assert order == before + [last];
    }
  }

  /** In every reachable state exactly one step is ready, until every step is closed. */
  lemma {:induction false} ExactlyOneReady(moves: seq<Move>, order: seq<nat>, j: nat)
    requires |moves| >= 1 && Execution(Formula(moves), order)
    ensures Ready(Formula(moves), Closed(Formula(moves), order), j) <==> j == |order| < |moves| + 2
  {
    ExecutionsFollowChain(moves, order);
    OnlyNextReady(moves, |order|, j);
  }

  /** The moves carried out by closing the steps `order`. */
  function Carried(steps: seq<Step>, order: seq<nat>): seq<Move>
    requires forall i :: 0 <= i < |order| ==> order[i] < |steps|
  {
    if order == [] then []
    else
      var last := steps[order[|order| - 1]];
      Carried(steps, order[..|order| - 1]) + if last.action.Some? then [last.action.value] else []
  }

  lemma {:induction false} CarriedStep(steps: seq<Step>, k: nat)
    requires 1 <= k <= |steps|
    ensures Carried(steps, UpTo(k)) ==
      Carried(steps, UpTo(k - 1)) + if steps[k - 1].action.Some? then [steps[k - 1].action.value] else []
  {
    assert UpTo(k)[..k - 1] == UpTo(k - 1);
  }

  /** How many moves the first k steps carry out. */
  function MovesWithin(total: nat, k: nat): nat {
    if k == 0 then 0 else if k <= total + 1 then k - 1 else total
  }

  lemma {:induction false} CarriedPrefix(moves: seq<Move>, k: nat)
    requires k <= |moves| + 2
    ensures Carried(Formula(moves), UpTo(k)) == moves[..MovesWithin(|moves|, k)]
  {
    if k == 0 {
    } else {
      CarriedPrefix(moves, k - 1);
      CarriedStep(Formula(moves), k);
      FormulaAt(moves, k - 1);
      TakeOneMore(moves, k);
    }
  }

  lemma {:induction false} TakeOneMore(moves: seq<Move>, k: nat)
    requires 1 <= k <= |moves| + 2
    ensures moves[..MovesWithin(|moves|, k)] ==
      moves[..MovesWithin(|moves|, k - 1)] + if 2 <= k <= |moves| + 1 then [moves[k - 2]] else []
  {
  }

  /** Sessions that stop after `first` and continue with `second`, knowing only which steps are closed:
      together they replay the emitted moves legally, and once nothing is ready the tower stands on
      peg C and the last step closed was the verification. */
  lemma {:induction false} ResumesToTheEnd(n: nat, first: seq<nat>, second: seq<nat>)
    requires n >= 1
    requires var steps := Formula(Moves(n, A, C, B)); Execution(steps, first) && Execution(steps, first + second)
    ensures var moves := Moves(n, A, C, B); var steps := Formula(moves); var done := Carried(steps, first + second);
      && Carried(steps, first) <= done <= moves
      && Replay(Initial(n), done).At? && AllOrdered(Replay(Initial(n), done).pegs)
      && (|first + second| == |steps| ==>
            Replay(Initial(n), done) == At(Final(n)) && steps[(first + second)[|steps| - 1]].id == "verify")
  {
    var moves := Moves(n, A, C, B);
    CarriedBy(n, first);
    CarriedBy(n, first + second);
    PrefixesInOrder(moves, MovesWithin(|moves|, |first|), MovesWithin(|moves|, |first + second|));
  }

  lemma {:induction false} PrefixesInOrder(moves: seq<Move>, i: nat, j: nat)
    requires i <= j <= |moves|
    ensures moves[..i] <= moves[..j] <= moves
  {
  }

  /** One session: the moves carried out are a legal prefix of the list, and all of it at the end. */
  lemma {:induction false} CarriedBy(n: nat, order: seq<nat>)
    requires n >= 1 && Execution(Formula(Moves(n, A, C, B)), order)
    ensures var moves := Moves(n, A, C, B); var steps := Formula(moves); var done := Carried(steps, order);
      && |order| <= |steps| == |moves| + 2 && done == moves[..MovesWithin(|moves|, |order|)]
      && Replay(Initial(n), done).At? && AllOrdered(Replay(Initial(n), done).pegs)
      && (|order| == |steps| ==> Replay(Initial(n), done) == At(Final(n)) && steps[order[|steps| - 1]].id == "verify")
  {
    var moves := Moves(n, A, C, B);
    MovesLength(n, A, C, B);
    PowPositive(n);
    ExecutionsFollowChain(moves, order);
    CarriedPrefix(moves, |order|);
    EveryPrefixLegal(n, MovesWithin(|moves|, |order|));
    if |order| == |moves| + 2 {
      MovesSolve(n);
      assert moves[..|moves|] == moves;
      FormulaAt(moves, |moves| + 1);
    }
  }
}
