/** Protection inside protection: the reply is protected before a stage that protects it once more, rewrites it and
    restores its own keys (parseOrchestratedCommands around preprocessOrchestratedResponse). */
module HeredocNested {
  import opened Text
  import opened Heredoc
  import opened HeredocProtect

  function Lines(response: string): (r: seq<string>)
    ensures |r| >= 1
  {
    Split(response, '\n')
  }

  ghost function HidingLines(response: string): (r: seq<string>)
    ensures |r| == |Lines(response)|
  {
    ProtectedLines(response, Lines(response), Roles(Lines(response)))
  }

  lemma {:induction false} SplitProtected(response: string)
    ensures Lines(Protected(response)) == HidingLines(response)
  {
    var hiding := HidingLines(response);
    SplitHasNoSep(response, '\n');
    forall p | p in hiding ensures '\n' !in p {
      var j :| 0 <= j < |hiding| && hiding[j] == p;
      KeyShape(response, j);
      assert Lines(response)[j] in Lines(response);
    }
    SplitJoin(hiding, '\n');
  }

  /*** No key is taken for a delimiter ***/

  lemma {:induction false} AwaitedIsOpened(lines: seq<string>, j: nat)
    requires j <= |lines|
    ensures AwaitedAt(Roles(lines), j) == "" || exists i ::
      0 <= i < j && DetectTerm(lines[i]) == AwaitedAt(Roles(lines), j)
  {
    if j == 0 {
    } else {
      AwaitedIsOpened(lines, j - 1);
      RolesAt(lines, j - 1);
    }
  }

  lemma {:induction false} KeyIsNotAwaited(response: string, i: nat, j: nat)
    requires j <= |Lines(response)|
    ensures Key(response, i) != AwaitedAt(Roles(Lines(response)), j)
  {
    var lines := Lines(response);
    var t := AwaitedAt(Roles(lines), j);
    KeyShape(response, i);
    AwaitedIsOpened(lines, j);
    if t != "" {
      var m :| 0 <= m < j && DetectTerm(lines[m]) == t;
      assert lines[m] == "" + lines[m];
      TermIsContained("", lines[m], lines[m]);
      JoinContainsPart(lines, m, '\n');
      JoinSplit(response, '\n');
      ContainsTransitive(response, lines[m], t);
      FreshKeyIsFresh(response, KeyBase(i));
    }
  }

  lemma {:induction false} KeyRole(response: string, i: nat)
    ensures TrimSpace(Key(response, i)) == Key(response, i)
  {
    var k := Key(response, i);
    KeyShape(response, i);
    FreshKeyIsFresh(response, KeyBase(i));
    KeyEnds(k, KeyBase(i), i);
    TrimmedUnchanged(k, IsSpace);
  }

  lemma {:induction false} KeyEnds(k: string, base: string, i: nat)
    requires base == KeyBase(i) && HasPrefix(k, base) && forall m :: |base| <= m < |k| ==> k[m] == '_'
    ensures k != "" && !IsSpace(k[0]) && !IsSpace(k[|k| - 1])
  {
    assert base[0] == 'G' && base[|base| - 1] == 'D';
    assert k[0] == base[0];
    if |k| == |base| {
      assert k[|k| - 1] == base[|base| - 1];
    }
  }

  /*** Both scans hide the same lines ***/

  lemma {:induction false} HidingRole(response: string, j: nat)
    requires j < |Lines(response)|
    ensures var roles, roles' := Roles(Lines(response)), Roles(HidingLines(response));
      if InClosedBody(roles, j) then roles'[j].trimmed == Key(response, j) else roles'[j] == roles[j]
  {
    RolesAt(Lines(response), j);
    RolesAt(HidingLines(response), j);
    KeyRole(response, j);
  }

  lemma {:induction false} SameAwaited(response: string, j: nat)
    requires j <= |Lines(response)|
    ensures AwaitedAt(Roles(HidingLines(response)), j) == AwaitedAt(Roles(Lines(response)), j)
  {
    if j == 0 {
    } else {
      SameAwaited(response, j - 1);
      HidingRole(response, j - 1);
      KeyIsNotAwaited(response, j - 1, j - 1);
    }
  }

  /** The line that closes the document awaited at `j`. */
  lemma {:induction false} FirstCloser(roles: seq<Role>, j: nat, e: nat) returns (f: nat)
    requires j < e < |roles| && AwaitedAt(roles, j) != "" && roles[j].trimmed != AwaitedAt(roles, j)
    requires roles[e].trimmed == AwaitedAt(roles, j)
    ensures j < f <= e && roles[f].trimmed == AwaitedAt(roles, j) == AwaitedAt(roles, f)
    decreases e - j
  {
    if roles[j + 1].trimmed == AwaitedAt(roles, j) {
      f := j + 1;
    } else {
      f := FirstCloser(roles, j + 1, e);
    }
  }

  lemma {:induction false} SameHidden(response: string, j: nat)
    requires j < |Lines(response)|
    ensures InClosedBody(Roles(HidingLines(response)), j) <==> InClosedBody(Roles(Lines(response)), j)
  {
    var roles, roles' := Roles(Lines(response)), Roles(HidingLines(response));
    SameAwaited(response, j);
    HidingRole(response, j);
    KeyIsNotAwaited(response, j, j);
    var t := AwaitedAt(roles, j);
    if InClosedBody(roles, j) {
      var e :| j < e < |roles| && roles[e].trimmed == t;
      var f := FirstCloser(roles, j, e);
      HidingRole(response, f);
      assert roles'[f].trimmed == t;
    }
    if InClosedBody(roles', j) {
      var e :| j < e < |roles'| && roles'[e].trimmed == t;
      HidingRole(response, e);
      KeyIsNotAwaited(response, e, j);
      assert roles[e].trimmed == t;
    }
  }

  lemma {:induction false} SameHiddenLines(response: string, j: nat)
    ensures j in HiddenLines(Protected(response)) <==> j in HiddenLines(response)
  {
    SplitProtected(response);
    var roles, roles' := Roles(Lines(response)), Roles(HidingLines(response));
    HiddenUpToExact(roles, |roles|, j);
    HiddenUpToExact(roles', |roles'|, j);
    if j < |roles| {
      SameHidden(response, j);
    }
  }

  /*** Rewriting under both ***/

  /** Whatever the inner stage does with the twice protected reply, short of touching keys, restoring its keys leaves an
      edit of the once protected reply; and restoring the outer keys then brings back every surviving payload line. */
  lemma {:induction false} NestedRewriting(response: string, edits: seq<Edited>)
    requires forall i :: 0 <= i < |edits| && edits[i].Kept? ==> edits[i].line in HiddenLines(Protected(response))
    requires forall i :: 0 <= i < |edits| && edits[i].Rewritten? ==>
      KeyFree(Replacements(response), edits[i].text) && KeyFree(Replacements(Protected(response)), edits[i].text)
    ensures var once := Protected(response);
      && WellKeyed(Replacements(response)) && WellKeyed(Replacements(once))
      && var inner := Restore(Replacements(once), Join(EditedText(once, edits), '\n'));
         && inner == Join(EditedText(response, edits), '\n')
         && Restore(Replacements(response), inner) == Join(EditedResult(Lines(response), edits), '\n')
  {
    var once := Protected(response);
    forall i | 0 <= i < |edits| && edits[i].Kept? ensures edits[i].line in HiddenLines(response) {
      SameHiddenLines(response, edits[i].line);
    }
    RewritingKeepsPayloads(once, edits);
    RewritingKeepsPayloads(response, edits);
    InnerResult(response, edits);
  }

  lemma {:induction false} InnerResult(response: string, edits: seq<Edited>)
    requires forall i :: 0 <= i < |edits| && edits[i].Kept? ==> edits[i].line in HiddenLines(response)
    ensures EditedResult(Lines(Protected(response)), edits) == EditedText(response, edits)
  {
    SplitProtected(response);
    var roles := Roles(Lines(response));
    forall i | 0 <= i < |edits|
      ensures EditedResult(HidingLines(response), edits)[i] == EditedText(response, edits)[i]
    {
      if edits[i].Kept? {
        HiddenUpToExact(roles, |roles|, edits[i].line);
      }
    }
  }
}
