/** The Towers of Hanoi solution that gen_hanoi.py precomputes: it is legal, it solves the puzzle,
    and no legal solution is shorter. */
module Hanoi {

  datatype Peg = A | B | C

  datatype Move = Move(disk: nat, from: Peg, to: Peg)

  /** Three stacks of disks, bottom first. */
  datatype Pegs = Pegs(a: seq<nat>, b: seq<nat>, c: seq<nat>)
  {
    function Get(p: Peg): seq<nat> {
      match p case A => a case B => b case C => c
    }
    function Put(p: Peg, s: seq<nat>): (r: Pegs)
      ensures r.Get(p) == s && forall q :: q != p ==> r.Get(q) == Get(q)
    {
      match p case A => this.(a := s) case B => this.(b := s) case C => this.(c := s)
    }
  }

  /** Only the top disk moves, and never onto a smaller one. */
  predicate Legal(st: Pegs, m: Move) {
    var s, t := st.Get(m.from), st.Get(m.to);
    m.from != m.to && |s| > 0 && s[|s| - 1] == m.disk && (|t| > 0 ==> t[|t| - 1] > m.disk)
  }

  function Apply(st: Pegs, m: Move): Pegs
    requires Legal(st, m)
  {
    var s := st.Get(m.from);
    st.Put(m.from, s[..|s| - 1]).Put(m.to, st.Get(m.to) + [m.disk])
  }

  datatype Replayed = Stuck | At(pegs: Pegs)

  /** Playing the moves one by one; Stuck as soon as one is illegal. */
  function Replay(st: Pegs, ms: seq<Move>): Replayed
    decreases |ms|
  {
    if ms == [] then At(st)
    else if Legal(st, ms[0]) then Replay(Apply(st, ms[0]), ms[1..])
    else Stuck
  }

  /** n disks, largest at the bottom. */
  function Tower(n: nat): seq<nat> {
    if n == 0 then [] else [n] + Tower(n - 1)
  }

  function Pow2(n: nat): nat {
    if n == 0 then 1 else 2 * Pow2(n - 1)
  }

  /*** hanoi_moves ***/

  function Moves(n: nat, src: Peg, tgt: Peg, aux: Peg): seq<Move>
    requires n >= 1
  {
    if n == 1 then [Move(1, src, tgt)]
    else Moves(n - 1, src, aux, tgt) + [Move(n, src, tgt)] + Moves(n - 1, aux, tgt, src)
  }

  /** The recursive `solve` appends to one shared list. */
  class Solver {
    var moves: seq<Move>

    constructor ()
      ensures moves == []
    {
      moves := [];
    }

    method Solve(n: nat, src: Peg, tgt: Peg, aux: Peg)
      requires n >= 1
      modifies this
      ensures moves == old(moves) + Moves(n, src, tgt, aux)
    {
      if n == 1 {
        moves := moves + [Move(1, src, tgt)];
      } else {
        Solve(n - 1, src, aux, tgt);
        moves := moves + [Move(n, src, tgt)];
        Solve(n - 1, aux, tgt, src);
        Regroup(old(moves), Moves(n - 1, src, aux, tgt), Move(n, src, tgt), Moves(n - 1, aux, tgt, src));
      }
    }
  }

  lemma {:induction false} Regroup(a: seq<Move>, b: seq<Move>, m: Move, c: seq<Move>)
    ensures a + b + [m] + c == a + (b + [m] + c)
  {
  }

  method HanoiMoves(n: nat) returns (moves: seq<Move>)
    requires n >= 1
    ensures moves == Moves(n, A, C, B)
  {
    var s := new Solver();
    s.Solve(n, A, C, B);
    moves := s.moves;
  }

  lemma {:induction false} MovesLength(n: nat, src: Peg, tgt: Peg, aux: Peg)
    requires n >= 1
    ensures |Moves(n, src, tgt, aux)| == Pow2(n) - 1
  {
    if n <= 1 {
    } else {
      MovesLength(n - 1, src, aux, tgt);
      MovesLength(n - 1, aux, tgt, src);
    }
  }

  /*** The moves solve the puzzle ***/

  lemma {:induction false} ReplayAppend(st: Pegs, xs: seq<Move>, ys: seq<Move>)
    requires Replay(st, xs).At?
    ensures Replay(st, xs + ys) == Replay(Replay(st, xs).pegs, ys)
    decreases |xs|
  {
    if xs == [] {
      assert xs + ys == ys;
    } else {
      assert (xs + ys)[1..] == xs[1..] + ys;
      ReplayAppend(Apply(st, xs[0]), xs[1..], ys);
    }
  }

  lemma {:induction false} ReplayPrefix(st: Pegs, xs: seq<Move>, ys: seq<Move>)
    requires Replay(st, xs + ys).At?
    ensures Replay(st, xs).At?
    decreases |xs|
  {
    if xs == [] {
    } else {
      assert (xs + ys)[1..] == xs[1..] + ys;
      ReplayPrefix(Apply(st, xs[0]), xs[1..], ys);
    }
  }

  predicate AllAbove(s: seq<nat>, n: nat) {
    forall i :: 0 <= i < |s| ==> s[i] > n
  }

  predicate ThreePegs(x: Peg, y: Peg, z: Peg) {
    x != y && y != z && x != z
  }

  /** `st` holds `x`, `y` and `z` on the three pegs. */
  predicate Holds(st: Pegs, src: Peg, x: seq<nat>, tgt: Peg, y: seq<nat>, aux: Peg, z: seq<nat>) {
    st.Get(src) == x && st.Get(tgt) == y && st.Get(aux) == z
  }

  lemma {:induction false} ApplyMoves(st: Pegs, d: nat, src: Peg, x: seq<nat>, tgt: Peg, y: seq<nat>, aux: Peg,
                                      z: seq<nat>)
    requires ThreePegs(src, tgt, aux) && Holds(st, src, x + [d], tgt, y, aux, z) && AllAbove(y, d)
    ensures Legal(st, Move(d, src, tgt))
    ensures Holds(Apply(st, Move(d, src, tgt)), src, x, tgt, y + [d], aux, z)
  {
    assert (x + [d])[..|x|] == x;
  }

  /** Moving a tower of n disks that stands on, and moves between, larger disks only. */
  lemma {:induction false} Transfers(n: nat, src: Peg, tgt: Peg, aux: Peg, st: Pegs, x: seq<nat>, y: seq<nat>,
                                     z: seq<nat>) returns (st': Pegs)
    requires n >= 1 && ThreePegs(src, tgt, aux)
    requires AllAbove(x, n) && AllAbove(y, n) && AllAbove(z, n)
    requires Holds(st, src, x + Tower(n), tgt, y, aux, z)
    ensures Replay(st, Moves(n, src, tgt, aux)) == At(st')
    ensures Holds(st', src, x, tgt, y + Tower(n), aux, z)
  {
    if n == 1 {
      st' := TransfersOne(src, tgt, aux, st, x, y, z);
    } else {
      AboveMore(x, n);
      AboveMore(y, n);
      AboveMore(z, n);
      TowerOn(x, n);
      var st1 := Transfers(n - 1, src, aux, tgt, st, x + [n], z, y);
      ApplyMoves(st1, n, src, x, tgt, y, aux, z + Tower(n - 1));
      var st2 := Apply(st1, Move(n, src, tgt));
      st' := Transfers(n - 1, aux, tgt, src, st2, z, y + [n], x);
      Rearranged(st', src, x, tgt, y, aux, z, n);
      GlueTransfers(st, Moves(n - 1, src, aux, tgt), Move(n, src, tgt), Moves(n - 1, aux, tgt, src), st1, st');
    }
  }

  lemma {:induction false} AboveMore(x: seq<nat>, n: nat)
    requires AllAbove(x, n) && n >= 1
    ensures AllAbove(x, n - 1) && AllAbove(x + [n], n - 1)
  {
  }

  lemma {:induction false} TowerOn(x: seq<nat>, n: nat)
    requires n >= 1
    ensures x + Tower(n) == (x + [n]) + Tower(n - 1)
  {
  }

  lemma {:induction false} Rearranged(st: Pegs, src: Peg, x: seq<nat>, tgt: Peg, y: seq<nat>, aux: Peg, z: seq<nat>,
                                      n: nat)
    requires n >= 1 && Holds(st, aux, z, tgt, (y + [n]) + Tower(n - 1), src, x)
    ensures Holds(st, src, x, tgt, y + Tower(n), aux, z)
  {
    TowerOn(y, n);
  }

  lemma {:induction false} TransfersOne(src: Peg, tgt: Peg, aux: Peg, st: Pegs, x: seq<nat>, y: seq<nat>, z: seq<nat>)
      returns (st': Pegs)
    requires ThreePegs(src, tgt, aux) && AllAbove(y, 1) && Holds(st, src, x + Tower(1), tgt, y, aux, z)
    ensures Replay(st, Moves(1, src, tgt, aux)) == At(st')
    ensures Holds(st', src, x, tgt, y + Tower(1), aux, z)
  {
    assert Tower(1) == [1] + Tower(0) == [1];
    ApplyMoves(st, 1, src, x, tgt, y, aux, z);
    st' := Apply(st, Move(1, src, tgt));
    assert [Move(1, src, tgt)][1..] == [];
  }

  lemma {:induction false} GlueTransfers(st: Pegs, xs: seq<Move>, m: Move, ys: seq<Move>, st1: Pegs, st': Pegs)
    requires Replay(st, xs) == At(st1) && Legal(st1, m) && Replay(Apply(st1, m), ys) == At(st')
    ensures Replay(st, xs + [m] + ys) == At(st')
  {
    ReplayAppend(st, xs, [m] + ys);
    assert xs + [m] + ys == xs + ([m] + ys);
    assert ([m] + ys)[1..] == ys;
  }

  function Initial(n: nat): Pegs {
    Pegs(Tower(n), [], [])
  }

  function Final(n: nat): Pegs {
    Pegs([], [], Tower(n))
  }

  /** The list that gen_hanoi.py emits takes the whole tower from peg A to peg C. */
  lemma {:induction false} MovesSolve(n: nat)
    requires n >= 1
    ensures Replay(Initial(n), Moves(n, A, C, B)) == At(Final(n))
  {
    assert [] + Tower(n) == Tower(n);
    var st' := Transfers(n, A, C, B, Initial(n), [], [], []);
    assert st' == Final(n);
  }

  /*** What every legal move keeps ***/

  /** Larger disks below smaller ones. */
  predicate Ordered(s: seq<nat>) {
    forall i, j :: 0 <= i < j < |s| ==> s[i] > s[j]
  }

  predicate AllOrdered(st: Pegs) {
    Ordered(st.a) && Ordered(st.b) && Ordered(st.c)
  }

  function Disks(st: Pegs): multiset<nat> {
    multiset(st.a) + multiset(st.b) + multiset(st.c)
  }

  lemma {:induction false} MoveKeepsOrder(st: Pegs, m: Move)
    requires AllOrdered(st) && Legal(st, m)
    ensures AllOrdered(Apply(st, m))
  {
    var t := st.Get(m.to);
    assert Ordered(t + [m.disk]) by {
      assert forall i :: 0 <= i < |t| ==> t[i] >= t[|t| - 1];
    }
  }

  lemma {:induction false} MoveKeepsDisks(st: Pegs, m: Move)
    requires Legal(st, m)
    ensures Disks(Apply(st, m)) == Disks(st)
  {
    var s, t := st.Get(m.from), st.Get(m.to);
    var st1 := st.Put(m.from, s[..|s| - 1]);
    PutDisks(st, m.from, s[..|s| - 1]);
    PutDisks(st1, m.to, t + [m.disk]);
    assert s == s[..|s| - 1] + [m.disk];
    DisksBalance(Disks(st), Disks(st1), Disks(Apply(st, m)), multiset(s[..|s| - 1]), multiset(t), m.disk);
  }

  lemma {:induction false} PutDisks(st: Pegs, p: Peg, s: seq<nat>)
    ensures Disks(st.Put(p, s)) + multiset(st.Get(p)) == Disks(st) + multiset(s)
  {
  }

  lemma {:induction false} DisksBalance(d0: multiset<nat>, d1: multiset<nat>, d2: multiset<nat>, s: multiset<nat>,
                                        t: multiset<nat>, disk: nat)
    requires d1 + (s + multiset{disk}) == d0 + s && d2 + t == d1 + (t + multiset{disk})
    ensures d2 == d0
  {
    forall x ensures d2[x] == d0[x] {
      assert (d1 + (s + multiset{disk}))[x] == (d0 + s)[x];
      assert (d2 + t)[x] == (d1 + (t + multiset{disk}))[x];
    }
  }

  lemma {:induction false} ReplayKeeps(st: Pegs, ms: seq<Move>)
    requires AllOrdered(st) && Replay(st, ms).At?
    ensures AllOrdered(Replay(st, ms).pegs) && Disks(Replay(st, ms).pegs) == Disks(st)
    decreases |ms|
  {
    if ms == [] {
    } else {
      MoveKeepsOrder(st, ms[0]);
      MoveKeepsDisks(st, ms[0]);
      ReplayKeeps(Apply(st, ms[0]), ms[1..]);
    }
  }

  lemma {:induction false} TowerOrdered(n: nat)
    ensures |Tower(n)| == n && forall i :: 0 <= i < n ==> Tower(n)[i] == n - i
  {
    if n == 0 {
    } else {
      TowerOrdered(n - 1);
    }
  }

  /** After every prefix of the list the replay is not stuck, all three pegs are ordered and no disk is lost. */
  lemma {:induction false} EveryPrefixLegal(n: nat, k: nat)
    requires n >= 1 && k <= |Moves(n, A, C, B)|
    ensures var r := Replay(Initial(n), Moves(n, A, C, B)[..k]);
      r.At? && AllOrdered(r.pegs) && Disks(r.pegs) == multiset(Tower(n))
  {
    var ms := Moves(n, A, C, B);
    MovesSolve(n);
    assert ms == ms[..k] + ms[k..];
    ReplayPrefix(Initial(n), ms[..k], ms[k..]);
    TowerOrdered(n);
    ReplayKeeps(Initial(n), ms[..k]);
  }
}
