/** No legal solution of the Towers of Hanoi is shorter than the one gen_hanoi.py emits. */
module HanoiMinimal {
  import opened Hanoi

  /*** Positions: which peg each of the disks 1..n is on ***/

  type Positions = seq<Peg>

  /** Disk d sits at index d - 1; a disk moves only when no smaller disk is on either peg involved. */
  predicate PosStep(p: Positions, m: Move, q: Positions) {
    && 1 <= m.disk <= |p| && m.from != m.to && p[m.disk - 1] == m.from && q == p[m.disk - 1 := m.to]
    && forall i :: 0 <= i < m.disk - 1 ==> p[i] != m.from && p[i] != m.to
  }

  predicate Trace(ms: seq<Move>, pos: seq<Positions>, n: nat) {
    && |pos| == |ms| + 1
    && (forall k :: 0 <= k <= |ms| ==> |pos[k]| == n)
    && (forall k :: 0 <= k < |ms| ==> PosStep(pos[k], ms[k], pos[k + 1]))
  }

  /** The first n disks are all on peg p. */
  predicate AllOn(pos: Positions, n: nat, p: Peg) {
    n <= |pos| && forall d :: 0 <= d < n ==> pos[d] == p
  }

  /** Moves among ms[lo..hi] of a disk no larger than n. */
  function Count(ms: seq<Move>, lo: nat, hi: nat, n: nat): nat
    requires lo <= hi <= |ms|
    decreases hi - lo
  {
    if lo == hi then 0 else (if ms[lo].disk <= n then 1 else 0) + Count(ms, lo + 1, hi, n)
  }

  lemma {:induction false} CountSplit(ms: seq<Move>, lo: nat, mid: nat, hi: nat, n: nat)
    requires lo <= mid <= hi <= |ms|
    ensures Count(ms, lo, hi, n) == Count(ms, lo, mid, n) + Count(ms, mid, hi, n)
    decreases mid - lo
  {
    if lo >= mid {
    } else {
      CountSplit(ms, lo + 1, mid, hi, n);
    }
  }

  lemma {:induction false} CountMonotone(ms: seq<Move>, lo: nat, hi: nat, n: nat)
    requires lo <= hi <= |ms| && n >= 1
    ensures Count(ms, lo, hi, n - 1) <= Count(ms, lo, hi, n) <= hi - lo
    decreases hi - lo
  {
    if lo >= hi {
    } else {
      CountMonotone(ms, lo + 1, hi, n);
    }
  }

  lemma {:induction false} StaysWhileUnmoved(ms: seq<Move>, pos: seq<Positions>, n: nat, lo: nat, hi: nat, d: nat)
    requires Trace(ms, pos, n) && lo <= hi <= |ms| && 1 <= d <= n
    requires forall k :: lo <= k < hi ==> ms[k].disk != d
    ensures pos[hi][d - 1] == pos[lo][d - 1]
    decreases hi - lo
  {
    if lo >= hi {
    } else {
      StaysWhileUnmoved(ms, pos, n, lo, hi - 1, d);
      assert PosStep(pos[hi - 1], ms[hi - 1], pos[hi]);
    }
  }

  lemma {:induction false} FirstMove(ms: seq<Move>, pos: seq<Positions>, n: nat, lo: nat, hi: nat, d: nat)
      returns (f: nat)
    requires Trace(ms, pos, n) && lo <= hi <= |ms| && 1 <= d <= n && pos[lo][d - 1] != pos[hi][d - 1]
    ensures lo <= f < hi && ms[f].disk == d && forall k :: lo <= k < f ==> ms[k].disk != d
    decreases hi - lo
  {
    if ms[lo].disk == d {
      f := lo;
    } else {
      assert PosStep(pos[lo], ms[lo], pos[lo + 1]);
      f := FirstMove(ms, pos, n, lo + 1, hi, d);
    }
  }

  lemma {:induction false} LastMove(ms: seq<Move>, pos: seq<Positions>, n: nat, lo: nat, hi: nat, d: nat)
      returns (l: nat)
    requires Trace(ms, pos, n) && lo <= hi <= |ms| && 1 <= d <= n && pos[lo][d - 1] != pos[hi][d - 1]
    ensures lo <= l < hi && ms[l].disk == d && forall k :: l < k < hi ==> ms[k].disk != d
    decreases hi - lo
  {
    if ms[hi - 1].disk == d {
      l := hi - 1;
    } else {
      assert PosStep(pos[hi - 1], ms[hi - 1], pos[hi]);
      l := LastMove(ms, pos, n, lo, hi - 1, d);
    }
  }

  function Third(p: Peg, q: Peg): (r: Peg)
    ensures p != q ==> ThreePegs(p, q, r)
  {
    if p != A && q != A then A else if p != B && q != B then B else C
  }

  /** While disk n moves, all smaller disks wait on the third peg. */
  lemma {:induction false} SmallerWait(p: Positions, m: Move, q: Positions)
    requires PosStep(p, m, q)
    ensures AllOn(p, m.disk - 1, Third(m.from, m.to)) && AllOn(q, m.disk - 1, Third(m.from, m.to))
  {
    forall d | 0 <= d < m.disk - 1
      ensures p[d] == Third(m.from, m.to) && q[d] == Third(m.from, m.to)
    {
      assert p[d] != m.from && p[d] != m.to;
    }
  }

  /** Bringing the n smallest disks from one peg to another takes at least 2^n - 1 moves of them. */
  lemma {:induction false} LowerBound(ms: seq<Move>, pos: seq<Positions>, total: nat, lo: nat, hi: nat, n: nat,
                                      p: Peg, q: Peg)
    requires Trace(ms, pos, total) && lo <= hi <= |ms| && n <= total && p != q
    requires AllOn(pos[lo], n, p) && AllOn(pos[hi], n, q)
    ensures Count(ms, lo, hi, n) >= Pow2(n) - 1
    decreases n
  {
    if n == 0 {
    } else {
      assert pos[lo][n - 1] == p && pos[hi][n - 1] == q;
      var f := FirstMove(ms, pos, total, lo, hi, n);
      var l := LastMove(ms, pos, total, lo, hi, n);
      assert f <= l;
      BeforeFirst(ms, pos, total, lo, f, n, p);
      AfterLast(ms, pos, total, l, hi, n, q);
      LowerBound(ms, pos, total, lo, f, n - 1, p, Third(ms[f].from, ms[f].to));
      LowerBound(ms, pos, total, l + 1, hi, n - 1, Third(ms[l].from, ms[l].to), q);
      CountParts(ms, lo, f, l, hi, n);
    }
  }

  lemma {:induction false} BeforeFirst(ms: seq<Move>, pos: seq<Positions>, total: nat, lo: nat, f: nat, n: nat, p: Peg)
    requires Trace(ms, pos, total) && lo <= f < |ms| && 1 <= n <= total && AllOn(pos[lo], n, p)
    requires ms[f].disk == n && forall k :: lo <= k < f ==> ms[k].disk != n
    ensures p != Third(ms[f].from, ms[f].to)
    ensures AllOn(pos[lo], n - 1, p) && AllOn(pos[f], n - 1, Third(ms[f].from, ms[f].to))
  {
    StaysWhileUnmoved(ms, pos, total, lo, f, n);
    assert PosStep(pos[f], ms[f], pos[f + 1]);
    SmallerWait(pos[f], ms[f], pos[f + 1]);
  }

  lemma {:induction false} AfterLast(ms: seq<Move>, pos: seq<Positions>, total: nat, l: nat, hi: nat, n: nat, q: Peg)
    requires Trace(ms, pos, total) && l < hi <= |ms| && 1 <= n <= total && AllOn(pos[hi], n, q)
    requires ms[l].disk == n && forall k :: l < k < hi ==> ms[k].disk != n
    ensures q != Third(ms[l].from, ms[l].to)
    ensures AllOn(pos[l + 1], n - 1, Third(ms[l].from, ms[l].to)) && AllOn(pos[hi], n - 1, q)
  {
    StaysWhileUnmoved(ms, pos, total, l + 1, hi, n);
    assert PosStep(pos[l], ms[l], pos[l + 1]);
    SmallerWait(pos[l], ms[l], pos[l + 1]);
  }

  lemma {:induction false} CountParts(ms: seq<Move>, lo: nat, f: nat, l: nat, hi: nat, n: nat)
    requires lo <= f <= l < hi <= |ms| && n >= 1 && ms[l].disk == n
    ensures Count(ms, lo, hi, n) >= Count(ms, lo, f, n - 1) + 1 + Count(ms, l + 1, hi, n - 1)
  {
    CountSplit(ms, lo, f, hi, n);
    CountSplit(ms, f, l, hi, n);
    CountMonotone(ms, lo, f, n);
    CountMonotone(ms, l + 1, hi, n);
  }

  /*** From stacks to positions ***/

  function PegOf(st: Pegs, d: nat): Peg {
    if d in st.a then A else if d in st.b then B else C
  }

  function Abs(st: Pegs, n: nat): (p: Positions)
    ensures |p| == n
  {
    seq(n, i requires 0 <= i < n => PegOf(st, i + 1))
  }

  /** Ordered pegs holding each of the disks 1..n once. */
  predicate Playable(st: Pegs, n: nat) {
    AllOrdered(st) && Disks(st) == multiset(Tower(n))
  }

  lemma {:induction false} CountCons(n: nat, smaller: seq<nat>, tower: seq<nat>, d: nat)
    requires tower == [n] + smaller
    ensures multiset(tower)[d] == multiset(smaller)[d] + (if d == n then 1 else 0)
  {
    assert multiset(tower) == multiset{n} + multiset(smaller);
  }

  lemma {:induction false} TowerCount(n: nat, d: nat)
    ensures multiset(Tower(n))[d] == if 1 <= d <= n then 1 else 0
  {
    if n == 0 {
    } else {
      TowerCount(n - 1, d);
      CountCons(n, Tower(n - 1), Tower(n), d);
    }
  }

  lemma {:induction false} OnOnePeg(st: Pegs, n: nat, d: nat, p: Peg)
    requires Playable(st, n)
    ensures d in st.Get(p) ==> 1 <= d <= n
    ensures 1 <= d <= n ==> (d in st.Get(p) <==> PegOf(st, d) == p)
  {
    TowerCount(n, d);
    assert Disks(st)[d] == multiset(st.a)[d] + multiset(st.b)[d] + multiset(st.c)[d];
    assert d in st.a <==> multiset(st.a)[d] > 0;
    assert d in st.b <==> multiset(st.b)[d] > 0;
    assert d in st.c <==> multiset(st.c)[d] > 0;
  }

  lemma {:induction false} SmallerElsewhere(st: Pegs, m: Move, d: nat)
    requires AllOrdered(st) && Legal(st, m) && d < m.disk
    ensures d !in st.Get(m.from) && d !in st.Get(m.to)
  {
    var s, t := st.Get(m.from), st.Get(m.to);
    assert Ordered(s) && Ordered(t);
  }

  lemma {:induction false} MovedDisk(st: Pegs, n: nat, m: Move, d: nat)
    requires Playable(st, n) && Legal(st, m) && 1 <= d <= n
    ensures PegOf(Apply(st, m), d) == if d == m.disk then m.to else PegOf(st, d)
  {
    var st' := Apply(st, m);
    MoveKeepsOrder(st, m);
    MoveKeepsDisks(st, m);
    OnOnePeg(st, n, d, PegOf(st, d));
    if d == m.disk {
      assert st'.Get(m.to)[|st.Get(m.to)|] == d;
      OnOnePeg(st', n, d, m.to);
    } else {
      StillThere(st, m, d, PegOf(st, d));
      OnOnePeg(st', n, d, PegOf(st, d));
    }
  }

  lemma {:induction false} StillThere(st: Pegs, m: Move, d: nat, p: Peg)
    requires Legal(st, m) && d != m.disk && d in st.Get(p)
    ensures d in Apply(st, m).Get(p)
  {
    var s := st.Get(m.from);
    assert s == s[..|s| - 1] + [m.disk];
  }

  lemma {:induction false} LegalMoveIsPosStep(st: Pegs, n: nat, m: Move)
    requires Playable(st, n) && Legal(st, m)
    ensures Playable(Apply(st, m), n)
    ensures PosStep(Abs(st, n), m, Abs(Apply(st, m), n))
  {
    MoveKeepsOrder(st, m);
    MoveKeepsDisks(st, m);
    OnOnePeg(st, n, m.disk, m.from);
    AbsMoved(st, n, m);
    AbsSmaller(st, n, m);
  }

  lemma {:induction false} AbsMoved(st: Pegs, n: nat, m: Move)
    requires Playable(st, n) && Legal(st, m) && 1 <= m.disk <= n
    ensures Abs(Apply(st, m), n) == Abs(st, n)[m.disk - 1 := m.to]
  {
    forall i | 0 <= i < n ensures Abs(Apply(st, m), n)[i] == Abs(st, n)[m.disk - 1 := m.to][i] {
      MovedDisk(st, n, m, i + 1);
    }
  }

  lemma {:induction false} AbsSmaller(st: Pegs, n: nat, m: Move)
    requires Playable(st, n) && Legal(st, m) && 1 <= m.disk <= n
    ensures forall i :: 0 <= i < m.disk - 1 ==> Abs(st, n)[i] != m.from && Abs(st, n)[i] != m.to
  {
    forall i | 0 <= i < m.disk - 1 ensures Abs(st, n)[i] != m.from && Abs(st, n)[i] != m.to {
      SmallerElsewhere(st, m, i + 1);
      OnOnePeg(st, n, i + 1, m.from);
      OnOnePeg(st, n, i + 1, m.to);
    }
  }

  /** The positions after each move of a replay. */
  ghost function TraceOf(st: Pegs, n: nat, ms: seq<Move>): (pos: seq<Positions>)
    requires Replay(st, ms).At?
    ensures |pos| == |ms| + 1 && pos[0] == Abs(st, n)
    decreases |ms|
  {
    if ms == [] then [Abs(st, n)] else [Abs(st, n)] + TraceOf(Apply(st, ms[0]), n, ms[1..])
  }

  lemma {:induction false} TraceOfLast(st: Pegs, n: nat, ms: seq<Move>)
    requires Replay(st, ms).At?
    ensures TraceOf(st, n, ms)[|ms|] == Abs(Replay(st, ms).pegs, n)
    decreases |ms|
  {
    if ms == [] {
    } else {
      TraceOfLast(Apply(st, ms[0]), n, ms[1..]);
    }
  }

  lemma {:induction false} ReplayIsTrace(st: Pegs, n: nat, ms: seq<Move>)
    requires Playable(st, n) && Replay(st, ms).At?
    ensures Trace(ms, TraceOf(st, n, ms), n)
    decreases |ms|
  {
    if ms == [] {
    } else {
      var st' := Apply(st, ms[0]);
      LegalMoveIsPosStep(st, n, ms[0]);
      ReplayIsTrace(st', n, ms[1..]);
      TraceCons(Abs(st, n), ms, TraceOf(st', n, ms[1..]), n);
    }
  }

  lemma {:induction false} TraceCons(p: Positions, ms: seq<Move>, rest: seq<Positions>, n: nat)
    requires |ms| > 0 && |p| == n && Trace(ms[1..], rest, n) && PosStep(p, ms[0], rest[0])
    ensures Trace(ms, [p] + rest, n)
  {
    var pos := [p] + rest;
    forall k | 0 <= k < |ms| ensures PosStep(pos[k], ms[k], pos[k + 1]) {
      assert pos[k + 1] == rest[k];
      if k > 0 {
        assert pos[k] == rest[k - 1] && ms[k] == ms[1..][k - 1];
        assert PosStep(rest[k - 1], ms[1..][k - 1], rest[k]);
      }
    }
  }

  lemma {:induction false} DiskOfTower(st: Pegs, n: nat, d: nat, p: Peg)
    requires Playable(st, n) && st.Get(p) == Tower(n) && 1 <= d <= n
    ensures PegOf(st, d) == p
  {
    DiskInTower(n, d);
    OnOnePeg(st, n, d, p);
  }

  lemma {:induction false} TowerOnPeg(st: Pegs, n: nat, p: Peg)
    requires Playable(st, n) && st.Get(p) == Tower(n)
    ensures AllOn(Abs(st, n), n, p)
  {
    forall i | 0 <= i < n ensures Abs(st, n)[i] == p {
      DiskOfTower(st, n, i + 1, p);
    }
  }

  lemma {:induction false} DiskInTower(n: nat, d: nat)
    requires 1 <= d <= n
    ensures d in Tower(n)
  {
    if d >= n {
    } else {
      DiskInTower(n - 1, d);
    }
  }

  /** Any sequence of legal moves that brings the tower from peg A to peg C, however it goes about
      it, is at least as long as the emitted list, which has 2^n - 1 moves. */
  lemma {:induction false} NoneShorter(n: nat, ms: seq<Move>)
    requires n >= 1 && Replay(Initial(n), ms).At? && Replay(Initial(n), ms).pegs.Get(C) == Tower(n)
    ensures |ms| >= |Moves(n, A, C, B)| == Pow2(n) - 1
  {
    TowerOrdered(n);
    assert Disks(Initial(n)) == multiset(Tower(n));
    var pos := TraceOf(Initial(n), n, ms);
    ReplayIsTrace(Initial(n), n, ms);
    TraceOfLast(Initial(n), n, ms);
    ReplayKeeps(Initial(n), ms);
    TowerOnPeg(Initial(n), n, A);
    TowerOnPeg(Replay(Initial(n), ms).pegs, n, C);
    LowerBound(ms, pos, n, 0, |ms|, n, A, C);
    CountMonotone(ms, 0, |ms|, n);
    MovesLength(n, A, C, B);
  }
}
