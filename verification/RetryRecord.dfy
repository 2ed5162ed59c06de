/** The single stored retry record of an agent: what sets and clears it over any history of tasks,
    completions, completion errors and restarts. */
module RetryRecord {
  import opened Text

  /** A step of a workflow. */
  datatype Pair = Pair(workflow: string, state: string)

  /** The stored failure; its texts are left out. */
  datatype Record = Record(pair: Pair, outcome: string)

  predicate FailureOutcome(outcome: string) {
    var o := ToLower(TrimSpace(outcome));
    o == "fail" || o == "failure"
  }

  /** What became of writing the state file: written, left as it was, or left unreadable. */
  datatype Saving = Saved | Unchanged | Ruined

  /** One pass of the agent's loop. `next` is the state the workflow went to. An agent whose task names no rig
      reports a failure and touches no record; one that cannot reach the model gives its work back. */
  datatype Event =
    | Completed(pair: Pair, outcome: string, next: string, save: Saving)
    | Errored(pair: Pair, spurious: bool, save: Saving)
    | Unavailable(pair: Pair, save: Saving)
    | Rigless(pair: Pair)
    | Restart

  predicate Stays(e: Event)
    requires e.Completed?
  {
    e.next == "" || e.next == e.pair.state
  }

  /*** updateOrchestratedRetry, updateOrchestratedRetryAfterComplete ***/

  function ClearFor(retry: Option<Record>, p: Pair): Option<Record> {
    if retry.Some? && retry.value.pair == p then None else retry
  }

  function Update(retry: Option<Record>, p: Pair, outcome: string): Option<Record> {
    if FailureOutcome(outcome) then Some(Record(p, outcome)) else ClearFor(retry, p)
  }

  /** The state in memory and in the state file. */
  datatype State = State(retry: Option<Record>, disk: Option<Record>)

  function Write(st: State, save: Saving): State {
    match save
    case Saved => State(st.retry, st.retry)
    case Unchanged => st
    case Ruined => State(st.retry, None)
  }

  function Step(st: State, e: Event): State {
    match e
    case Completed(p, outcome, next, save) =>
      Write(st.(retry := if Stays(e) then Update(st.retry, p, outcome) else ClearFor(st.retry, p)), save)
    case Errored(p, spurious, save) =>
      Write(st.(retry := if spurious then None else Update(st.retry, p, "failure")), save)
    case Unavailable(_, save) => Write(st, save)
    case Rigless(_) => st
    case Restart => st.(retry := st.disk)
  }

  class Agent {
    var retry: Option<Record>
    var disk: Option<Record>

    ghost function St(): State
      reads this
    {
      State(retry, disk)
    }

    method UpdateRetry(p: Pair, outcome: string)
      modifies this
      ensures retry == Update(old(retry), p, outcome) && disk == old(disk)
    {
      if !FailureOutcome(outcome) {
        if retry.Some? && retry.value.pair == p {
          retry := None;
        }
        return;
      }
      retry := Some(Record(p, outcome));
    }

    method UpdateRetryAfterComplete(p: Pair, outcome: string, next: string)
      modifies this
      ensures disk == old(disk)
      ensures retry == if next == "" || next == p.state then Update(old(retry), p, outcome) else ClearFor(old(retry), p)
    {
      if next != "" && next != p.state {
        if retry.Some? && retry.value.pair == p {
          retry := None;
        }
        return;
      }
      UpdateRetry(p, outcome);
    }

    method Save(save: Saving)
      modifies this
      ensures St() == Write(old(St()), save)
    {
      match save
      case Saved => disk := retry;
      case Unchanged =>
      case Ruined => disk := None;
    }

    method Handle(e: Event)
      modifies this
      ensures St() == Step(old(St()), e)
    {
      FailureIsFailure();
      match e
      case Completed(p, outcome, next, save) =>
        UpdateRetryAfterComplete(p, outcome, next);
        Save(save);
      case Errored(p, spurious, save) =>
        if spurious {
          retry := None;
        } else {
          UpdateRetry(p, "failure");
        }
        Save(save);
      case Unavailable(_, save) =>
        Save(save);
      case Rigless(_) =>
      case Restart =>
        retry := disk;
    }
  }

  lemma {:induction false} FailureIsFailure()
    ensures FailureOutcome("failure")
  {
    TrimmedUnchanged("failure", IsSpace);
    assert ToLower("failure") == "failure";
  }

  /*** Histories ***/

  function Run(es: seq<Event>): State
    decreases |es|
  {
    if es == [] then State(None, None) else Step(Run(es[..|es| - 1]), es[|es| - 1])
  }

  /** A failure that stays in its step, or a completion error that is not spurious. */
  predicate Keeps(e: Event) {
    (e.Completed? && Stays(e) && FailureOutcome(e.outcome)) || (e.Errored? && !e.spurious)
  }

  /** The event decides about the record of `p`, one way or the other. */
  predicate Settles(e: Event, p: Pair) {
    (e.Completed? || e.Errored?) && e.pair == p
  }

  /** The event replaces or drops whatever record there is. */
  predicate Overrides(e: Event) {
    Keeps(e) || (e.Errored? && e.spurious)
  }

  predicate IsFor(retry: Option<Record>, p: Pair) {
    retry.Some? && retry.value.pair == p
  }

  /** At index `i` the record for `p` was made, and nothing since has settled that pair or replaced the record. */
  predicate MadeAt(es: seq<Event>, p: Pair, i: nat) {
    && i < |es| && Keeps(es[i]) && es[i].pair == p
    && forall j :: i < j < |es| ==> !Settles(es[j], p) && !Overrides(es[j])
  }

  lemma {:induction false} MadeEarlier(es: seq<Event>, p: Pair, i: nat)
    requires es != [] && MadeAt(es[..|es| - 1], p, i) && !Settles(es[|es| - 1], p) && !Overrides(es[|es| - 1])
    ensures MadeAt(es, p, i)
  {
    var init := es[..|es| - 1];
    forall j | i < j < |es| ensures !Settles(es[j], p) && !Overrides(es[j]) {
      if j < |init| {
        assert es[j] == init[j];
      }
    }
  }

  /*** Exactly when every stored record is recent ***/

  /** The file has no record, or one for the step that memory has one for. */
  predicate Agrees(st: State) {
    st.disk.Some? ==> IsFor(st.retry, st.disk.value.pair)
  }

  /** Every restart finds such a file. */
  predicate FileAgrees(es: seq<Event>) {
    forall j :: 0 <= j < |es| && es[j].Restart? ==> Agrees(Run(es[..j]))
  }

  predicate Recent(es: seq<Event>, p: Pair) {
    exists i :: 0 <= i < |es| && MadeAt(es, p, i)
  }

  /** At every moment of the history a stored record was made by the most recent event that settled its pair. */
  ghost predicate AlwaysRecent(es: seq<Event>) {
    forall n, p :: 0 <= n <= |es| && IsFor(Run(es[..n]).retry, p) ==> Recent(es[..n], p)
  }

  lemma {:induction false} AgreesPrefix(es: seq<Event>, n: nat)
    requires n <= |es| && FileAgrees(es)
    ensures FileAgrees(es[..n])
  {
    forall j | 0 <= j < n && es[..n][j].Restart? ensures Agrees(Run(es[..n][..j])) {
      assert es[..n][..j] == es[..j];
    }
  }

  /** A stored record was made by the most recent event that settled its pair: a failure that stayed there,
      or a completion error that was not spurious. So leaving a step by a completion never lets its old failure
      replay; `LastReport` below takes reports without a rig into account. */
  lemma {:induction false} RecordIsRecent(es: seq<Event>, p: Pair) returns (i: nat)
    requires FileAgrees(es) && IsFor(Run(es).retry, p)
    ensures MadeAt(es, p, i)
    decreases |es|
  {
    var n := |es| - 1;
    FailureIsFailure();
    if Keeps(es[n]) {
      i := n;
    } else {
      AgreesPrefix(es, n);
      assert es[n].Restart? ==> Agrees(Run(es[..n]));
      i := RecordIsRecent(es[..n], p);
      MadeEarlier(es, p, i);
    }
  }

  lemma {:induction false} MadeBefore(es: seq<Event>, p: Pair, i: nat)
    requires i < |es| - 1 && MadeAt(es, p, i)
    ensures MadeAt(es[..|es| - 1], p, i) && !Settles(es[|es| - 1], p) && !Overrides(es[|es| - 1])
  {
    var init := es[..|es| - 1];
    assert init[i] == es[i];
    assert forall j :: i < j < |init| ==> init[j] == es[j];
  }

  /** While restarts find files that agree, a recent failure is stored, or memory and file are both empty. */
  lemma {:induction false} StoredOrGone(es: seq<Event>, p: Pair, i: nat)
    requires FileAgrees(es) && MadeAt(es, p, i)
    ensures IsFor(Run(es).retry, p) || Run(es) == State(None, None)
    decreases |es|
  {
    var n := |es| - 1;
    FailureIsFailure();
    if i == n {
    } else {
      MadeBefore(es, p, i);
      AgreesPrefix(es, n);
      StoredOrGone(es[..n], p, i);
      assert es[n].Restart? ==> Agrees(Run(es[..n]));
    }
  }

  lemma {:induction false} RecentPrefix(es: seq<Event>, n: nat)
    requires n <= |es| && AlwaysRecent(es)
    ensures AlwaysRecent(es[..n])
  {
    forall m, p | 0 <= m <= n && IsFor(Run(es[..n][..m]).retry, p) ensures Recent(es[..n][..m], p) {
      assert es[..n][..m] == es[..m];
    }
  }

  /** A restart from a file that does not agree stores a record that is not recent. */
  lemma {:induction false} RestartAgrees(es: seq<Event>)
    requires es != [] && es[|es| - 1].Restart? && FileAgrees(es[..|es| - 1]) && AlwaysRecent(es)
    ensures Agrees(Run(es[..|es| - 1]))
  {
    var n := |es| - 1;
    var st := Run(es[..n]);
    if st.disk.Some? {
      var p := st.disk.value.pair;
      assert es[..|es|] == es;
      assert Recent(es, p);
      var i :| 0 <= i < |es| && MadeAt(es, p, i);
      MadeBefore(es, p, i);
      StoredOrGone(es[..n], p, i);
    }
  }

  lemma {:induction false} RecentAgrees(es: seq<Event>)
    requires AlwaysRecent(es)
    ensures FileAgrees(es)
    decreases |es|
  {
    if es == [] {
    } else {
      var n := |es| - 1;
      RecentPrefix(es, n);
      RecentAgrees(es[..n]);
      forall j | 0 <= j < |es| && es[j].Restart? ensures Agrees(Run(es[..j])) {
        if j == n {
          RestartAgrees(es);
        } else {
          assert es[..n][j].Restart? && es[..n][..j] == es[..j];
        }
      }
    }
  }

  /** Stored records are recent throughout a history if and only if every restart finds a file without a record or
      with one for the step that memory has one for. */
  lemma {:induction false} AlwaysRecentIff(es: seq<Event>)
    ensures AlwaysRecent(es) <==> FileAgrees(es)
  {
    if FileAgrees(es) {
      forall n, p | 0 <= n <= |es| && IsFor(Run(es[..n]).retry, p) ensures Recent(es[..n], p) {
        AgreesPrefix(es, n);
        var i := RecordIsRecent(es[..n], p);
      }
    } else if AlwaysRecent(es) {
      RecentAgrees(es);
    }
  }

  /*** Writes that go through ***/

  /** The last write of the state file before the end of `es` went through, or left nothing to read. */
  predicate Synced(es: seq<Event>)
    decreases |es|
  {
    if es == [] then true
    else
      var e := es[|es| - 1];
      if e.Rigless? || e.Restart? then Synced(es[..|es| - 1]) else e.save != Unchanged
  }

  /** No restart follows a state-file write that silently did nothing. */
  predicate CleanRestarts(es: seq<Event>) {
    forall i :: 0 <= i < |es| && es[i].Restart? ==> Synced(es[..i])
  }

  lemma {:induction false} CleanPrefix(es: seq<Event>)
    requires es != [] && CleanRestarts(es)
    ensures CleanRestarts(es[..|es| - 1])
  {
    var init := es[..|es| - 1];
    forall i | 0 <= i < |init| && init[i].Restart? ensures Synced(init[..i]) {
      assert init[..i] == es[..i] && init[i] == es[i];
    }
  }

  lemma {:induction false} SyncedDisk(es: seq<Event>)
    requires Synced(es) && CleanRestarts(es)
    ensures Run(es).disk == Run(es).retry || Run(es).disk == None
    decreases |es|
  {
    if es == [] {
    } else {
      var init := es[..|es| - 1];
      CleanPrefix(es);
      if es[|es| - 1].Rigless? || es[|es| - 1].Restart? {
        SyncedDisk(init);
      }
    }
  }

  /** Where no restart follows a write that silently did nothing, the files agree. */
  lemma {:induction false} CleanRestartsAgree(es: seq<Event>)
    requires CleanRestarts(es)
    ensures FileAgrees(es)
  {
    forall j | 0 <= j < |es| && es[j].Restart? ensures Agrees(Run(es[..j])) {
      CleanUpTo(es, j);
      SyncedDisk(es[..j]);
    }
  }

  lemma {:induction false} CleanUpTo(es: seq<Event>, n: nat)
    requires n <= |es| && CleanRestarts(es)
    ensures CleanRestarts(es[..n])
  {
    forall j | 0 <= j < n && es[..n][j].Restart? ensures Synced(es[..n][..j]) {
      assert es[..n][..j] == es[..j];
    }
  }

  /** A failed write that lost nothing does no harm, although a restart follows it. */
  lemma {:induction false} HarmlessWriteAgrees(p: Pair, es: seq<Event>)
    requires es == [Completed(p, "failure", "", Saved), Unavailable(p, Unchanged), Restart]
    ensures !CleanRestarts(es) && FileAgrees(es) && MadeAt(es, p, 0)
  {
    FailureIsFailure();
    var a, b := es[..1], es[..2];
    assert b[..1] == a && a[..0] == [];
    assert Run(a) == Step(State(None, None), es[0]);
    assert Run(b) == Run(a);
    assert !Synced(b) && es[2].Restart?;
  }

  /** The last write of the state file before the end of `es` went through. */
  predicate LastSaved(es: seq<Event>)
    decreases |es|
  {
    if es == [] then true
    else
      var e := es[|es| - 1];
      if e.Rigless? || e.Restart? then LastSaved(es[..|es| - 1]) else e.save == Saved
  }

  lemma {:induction false} SavedDisk(es: seq<Event>)
    requires LastSaved(es)
    ensures Run(es).disk == Run(es).retry
    decreases |es|
  {
    if es == [] || !es[|es| - 1].Rigless? {
    } else {
      SavedDisk(es[..|es| - 1]);
    }
  }

  /** Every restart after index `i` found the state file as last written. */
  predicate SavedRestarts(es: seq<Event>, i: nat) {
    forall j :: i < j < |es| && es[j].Restart? ==> LastSaved(es[..j])
  }

  lemma {:induction false} MadePrefix(es: seq<Event>, p: Pair, i: nat)
    requires i < |es| - 1 && MadeAt(es, p, i) && SavedRestarts(es, i)
    ensures MadeAt(es[..|es| - 1], p, i) && SavedRestarts(es[..|es| - 1], i)
  {
    var init := es[..|es| - 1];
    assert init[i] == es[i];
    forall j | i < j < |init|
      ensures !Settles(init[j], p) && !Overrides(init[j]) && (init[j].Restart? ==> LastSaved(init[..j]))
    {
      assert init[j] == es[j] && init[..j] == es[..j];
    }
  }

  /** Conversely such a record is still there, through any restart that finds the state file as last written. */
  lemma {:induction false} RecentIsRecord(es: seq<Event>, p: Pair, i: nat)
    requires MadeAt(es, p, i) && SavedRestarts(es, i)
    ensures Run(es).retry.Some? && Run(es).retry.value.pair == p
    decreases |es|
  {
    var n := |es| - 1;
    FailureIsFailure();
    if i >= n {
    } else {
      MadePrefix(es, p, i);
      RecentIsRecord(es[..n], p, i);
      assert !Settles(es[n], p) && !Overrides(es[n]);
      if es[n].Restart? {
        SavedDisk(es[..n]);
      }
    }
  }

  /** Every restart after index `i` reads a record for `p`. */
  predicate ReadBack(es: seq<Event>, p: Pair, i: nat) {
    forall j :: i < j < |es| && es[j].Restart? ==> IsFor(Run(es[..j]).disk, p)
  }

  lemma {:induction false} ReadBackLast(es: seq<Event>, p: Pair, i: nat)
    requires i < |es| - 1
    ensures var n := |es| - 1;
      ReadBack(es, p, i) <==> ReadBack(es[..n], p, i) && (es[n].Restart? ==> IsFor(Run(es[..n]).disk, p))
  {
    var n := |es| - 1;
    assert forall j :: i < j < n ==> es[..n][j] == es[j] && es[..n][..j] == es[..j];
  }

  /** One event that neither settles `p` nor replaces the record. */
  lemma {:induction false} SurvivesStep(st: State, e: Event, p: Pair)
    requires !Settles(e, p) && !Overrides(e)
    ensures IsFor(Step(st, e).retry, p) <==> IsFor(if e.Restart? then st.disk else st.retry, p)
    ensures !IsFor(st.disk, p) && (e.Restart? || !IsFor(st.retry, p)) ==> !IsFor(Step(st, e).disk, p)
  {
  }

  /** Whatever the files, a failure not settled since is still stored if and only if every restart read it back; once
      lost it is in neither place. */
  lemma {:induction false} RecordSurvivesIff(es: seq<Event>, p: Pair, i: nat)
    requires MadeAt(es, p, i)
    ensures IsFor(Run(es).retry, p) <==> ReadBack(es, p, i)
    ensures !ReadBack(es, p, i) ==> !IsFor(Run(es).disk, p)
    decreases |es|
  {
    FailureIsFailure();
    var n := |es| - 1;
    if i == n {
    } else {
      MadeBefore(es, p, i);
      RecordSurvivesIff(es[..n], p, i);
      ReadBackLast(es, p, i);
      SurvivesStep(Run(es[..n]), es[n], p);
    }
  }

  /** A write that silently does nothing brings a settled failure back after a restart. */
  lemma {:induction false} StaleFileReplays(p: Pair, es: seq<Event>)
    requires es == [Completed(p, "failure", "", Saved), Completed(p, "success", "", Unchanged), Restart]
    ensures !FileAgrees(es) && Run(es).retry == Some(Record(p, "failure"))
    ensures forall i :: !MadeAt(es, p, i)
  {
    FailureIsFailure();
    SuccessIsNoFailure();
    var a, b := es[..1], es[..2];
    assert es[..|es| - 1] == b && b[..1] == a && a[..0] == [];
    var r := Some(Record(p, "failure"));
    assert Run(a) == Step(State(None, None), es[0]) == State(r, r);
    assert Run(b) == Step(Run(a), es[1]) == State(None, r);
    assert !Agrees(Run(es[..2])) && es[2].Restart?;
    forall i ensures !MadeAt(es, p, i) {
      assert Settles(es[1], p) && !Keeps(es[1]) && !Keeps(es[2]);
    }
  }

  lemma {:induction false} SuccessIsNoFailure()
    ensures !FailureOutcome("success")
  {
    TrimmedUnchanged("success", IsSpace);
    assert ToLower("success")[0] == 's' && "fail"[0] == 'f' && "failure"[0] == 'f';
  }

  /*** Reports without a rig ***/

  /** Work on `p` was reported, one way or another. */
  predicate Reports(e: Event, p: Pair) {
    (e.Completed? || e.Errored? || e.Rigless?) && e.pair == p
  }

  /** The most recent report on `p`. */
  function LastReport(es: seq<Event>, p: Pair): Option<Event>
    decreases |es|
  {
    if es == [] then None
    else if Reports(es[|es| - 1], p) then Some(es[|es| - 1])
    else LastReport(es[..|es| - 1], p)
  }

  lemma {:induction false} LastReportAfter(es: seq<Event>, p: Pair, i: nat)
    requires MadeAt(es, p, i)
    ensures LastReport(es, p).Some? && (LastReport(es, p).value == es[i] || LastReport(es, p).value == Rigless(p))
    decreases |es|
  {
    var n := |es| - 1;
    if i == n {
    } else {
      var init := es[..n];
      assert MadeAt(init, p, i) by {
        assert init[i] == es[i];
        assert forall j :: i < j < n ==> init[j] == es[j];
      }
      assert !Settles(es[n], p);
      LastReportAfter(init, p, i);
    }
  }

  /** While a record for `p` is stored, the most recent report on `p` was a failure that stayed there or a completion
      error that was not spurious, if and only if it was not made without a rig. */
  lemma {:induction false} LastReportKeepsIff(es: seq<Event>, p: Pair)
    requires FileAgrees(es) && IsFor(Run(es).retry, p)
    ensures LastReport(es, p).Some? && (Keeps(LastReport(es, p).value) <==> LastReport(es, p).value != Rigless(p))
  {
    var i := RecordIsRecent(es, p);
    LastReportAfter(es, p, i);
  }

  /** A report without a rig is such a case: the step was reported again, and its old failure replays. */
  lemma {:induction false} RiglessReportReplays(p: Pair, es: seq<Event>)
    requires es == [Completed(p, "failure", "", Saved), Rigless(p)]
    ensures FileAgrees(es) && LastReport(es, p) == Some(Rigless(p)) && Run(es).retry == Some(Record(p, "failure"))
  {
    FailureIsFailure();
    var a := es[..1];
    assert es[..|es| - 1] == a && a[..0] == [];
    assert Run(a) == Step(State(None, None), es[0]);
  }
}
