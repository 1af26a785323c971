/** What each transition promises beyond the consistency rules: which task it addresses
    (first match, fields in order then tasks in order), the order of its checks, that nothing
    else changes, the round trips between transitions, and where the older inline handler
    differs from the handler modules. */
module Properties {
  import opened Optional
  import opened Contracts
  import opened StateMachine

  /** `i` is the position `findIndex(p)` returns on `s`. */
  ghost predicate IsFirst<T>(s: seq<T>, p: T -> bool, i: int) {
    0 <= i < |s| && p(s[i]) && forall j :: 0 <= j < i ==> !p(s[j])
  }

  ghost predicate NoMatch<T>(s: seq<T>, p: T -> bool) {
    forall j :: 0 <= j < |s| ==> !p(s[j])
  }

  // ---------------------------------------------------------------------------------------
  // /claim

  /** Claim checks first that a field with the id exists, then that the first such field has
      an available task with the name. */
  lemma ClaimChecksFieldThenTask(cs: seq<Field>, id: int, name: string, user: User)
    ensures var r := Claim(cs, id, name, user);
      && (r.outcome == FieldNotFound <==> NoMatch(cs, HasId(id)))
      && (r.outcome == TaskUnavailable <==>
            exists c :: IsFirst(cs, HasId(id), c) && NoMatch(cs[c].tasks, NamedWith(name, Available)))
  {
    match FieldIndex(cs, id)
    case None =>
    case Some(c) =>
      forall c' | IsFirst(cs, HasId(id), c') ensures c' == c {}
  }

  /** Only when both are found does Claim look at the user's claims: it refuses a second
      claim, and otherwise it claims the first available task with the name in the first field
      with the id. */
  lemma ClaimChecksClaimsLast(cs: seq<Field>, id: int, name: string, user: User)
    ensures var r := Claim(cs, id, name, user);
      && (r.outcome == AlreadyClaiming <==>
            (HoldsClaim(cs, user) &&
             exists c, t :: IsFirst(cs, HasId(id), c) && IsFirst(cs[c].tasks, NamedWith(name, Available), t)))
      && (r.outcome.TaskClaimed? <==>
            (!HoldsClaim(cs, user) &&
             exists c, t :: IsFirst(cs, HasId(id), c) && IsFirst(cs[c].tasks, NamedWith(name, Available), t)))
      && (r.outcome.TaskClaimed? ==>
            IsFirst(cs, HasId(id), r.outcome.c) &&
            IsFirst(cs[r.outcome.c].tasks, NamedWith(name, Available), r.outcome.t))
  {
    match FieldIndex(cs, id)
    case None =>
    case Some(c) =>
      forall c' | IsFirst(cs, HasId(id), c') ensures c' == c {}
      match FirstIndex(cs[c].tasks, NamedWith(name, Available))
      case None =>
      case Some(t) =>
        assert IsFirst(cs, HasId(id), c) && IsFirst(cs[c].tasks, NamedWith(name, Available), t);
  }

  /** After a successful claim the claimed task is the user's one and only claim. */
  lemma ClaimGivesSoleClaim(cs: seq<Field>, id: int, name: string, user: User)
    ensures var r := Claim(cs, id, name, user);
      r.outcome.TaskClaimed? ==>
        && IsClaimBy(r.contracts, r.outcome.c, r.outcome.t, user)
        && (forall c, t :: IsClaimBy(r.contracts, c, t, user) ==> c == r.outcome.c && t == r.outcome.t)
        && FirstClaimOf(r.contracts, user) == Some((r.outcome.c, r.outcome.t))
  {
    var r := Claim(cs, id, name, user);
    if r.outcome.TaskClaimed? {
      var c, t := r.outcome.c, r.outcome.t;
      forall c', t' | IsClaimBy(r.contracts, c', t', user) ensures c' == c && t' == t {
        if c' != c || t' != t {
          assert IsClaimBy(cs, c', t', user);
        }
      }
    }
  }

  // ---------------------------------------------------------------------------------------
  // /complete, /cancel and the private Complete button

  /** Complete writes only when the user holds a claim, and then completes the first one
      (fields in order, then tasks in order), recording the user as completer. */
  lemma CompleteTakesFirstClaim(cs: seq<Field>, user: User)
    ensures var r := Complete(cs, user);
      && (r.outcome == NothingToComplete <==> !HoldsClaim(cs, user))
      && (r.outcome.TaskCompleted? ==>
            var c, t := r.outcome.c, r.outcome.t;
            && IsClaimBy(cs, c, t, user) && NoClaimBefore(cs, user, c, t)
            && r.contracts == SetTask(cs, c, t, cs[c].tasks[t].(status := Completed, completedBy := Some(user), claimedBy := None)))
  {
  }

  /** Cancel writes only when the user holds a claim, and then makes the first one available
      again, leaving `completedBy` as it was. */
  lemma CancelTakesFirstClaim(cs: seq<Field>, user: User)
    ensures var r := Cancel(cs, user);
      && (r.outcome == NothingToCancel <==> !HoldsClaim(cs, user))
      && (r.outcome.TaskCancelled? ==>
            var c, t := r.outcome.c, r.outcome.t;
            && IsClaimBy(cs, c, t, user) && NoClaimBefore(cs, user, c, t)
            && r.contracts == SetTask(cs, c, t, cs[c].tasks[t].(status := Available, claimedBy := None)))
  {
  }

  /** The button addresses a task by position only; it still completes nothing unless the
      task at that position is claimed by the presser. */
  lemma ButtonNeedsOwnClaim(cs: seq<Field>, c: Option<int>, t: Option<int>, user: User)
    ensures var r := CompleteAt(cs, c, t, user);
      && (r.outcome == ContractNotFound <==> c.None? || c.value < 0 || c.value >= |cs|)
      && (r.outcome.TaskCompleted? <==> c.Some? && t.Some? && IsClaimBy(cs, c.value, t.value, user))
      && (r.outcome.TaskCompleted? ==>
            && r.outcome.c == c.value && r.outcome.t == t.value
            && r.contracts == SetTask(cs, c.value, t.value,
                 cs[c.value].tasks[t.value].(status := Completed, claimedBy := None, completedBy := Some(user))))
  {
  }

  /** With one claim per user, a button press that completes anything does exactly what
      /complete does for the same user. */
  lemma ButtonAgreesWithComplete(cs: seq<Field>, c: Option<int>, t: Option<int>, user: User)
    requires SingleClaim(cs)
    ensures CompleteAt(cs, c, t, user).outcome.TaskCompleted? ==> CompleteAt(cs, c, t, user) == Complete(cs, user)
  {
    if CompleteAt(cs, c, t, user).outcome.TaskCompleted? {
      assert IsClaimBy(cs, c.value, t.value, user);
      var p := FirstClaimOf(cs, user);
      assert p.Some?;
      assert IsClaimBy(cs, p.value.0, p.value.1, user);
    }
  }

  // ---------------------------------------------------------------------------------------
  // Admin requests

  /** The admin requests change nothing for a caller without ManageGuild; claim, complete,
      cancel and the button do not look at the permission at all. */
  lemma AdminGate(cs: seq<Field>, req: Request, user: User)
    ensures req.Reopening? || req.AddingField? || req.AddingTask? || req.DeletingField? || req.DeletingTask? ==>
      Apply(cs, req, user, false) == Transition(NoPermission, cs) &&
      LegacyApply(cs, req, user, false) == Transition(NoPermission, cs)
    ensures req.Claiming? || req.Completing? || req.Cancelling? || req.PressingComplete? ==>
      Apply(cs, req, user, false) == Apply(cs, req, user, true)
  {
  }

  /** Reopen picks the first completed task with the name in the first field with the id and
      makes it available with neither claimer nor completer. */
  lemma ReopenFirstCompleted(cs: seq<Field>, id: int, name: string)
    ensures var r := Reopen(cs, true, id, name);
      && (r.outcome == FieldNotFound <==> NoMatch(cs, HasId(id)))
      && (r.outcome == TaskNotCompleted <==>
            exists c :: IsFirst(cs, HasId(id), c) && NoMatch(cs[c].tasks, NamedWith(name, Completed)))
      && (r.outcome.TaskReopened? ==>
            var c, t := r.outcome.c, r.outcome.t;
            && IsFirst(cs, HasId(id), c) && IsFirst(cs[c].tasks, NamedWith(name, Completed), t)
            && r.contracts == SetTask(cs, c, t, cs[c].tasks[t].(status := Available, claimedBy := None, completedBy := None)))
  {
    match FieldIndex(cs, id)
    case None =>
    case Some(c) =>
      forall c' | IsFirst(cs, HasId(id), c') ensures c' == c {}
  }

  /** Addfield rejects an id already present; otherwise the new field, with no tasks and notes
      defaulting to '', is appended and is the only field with that id. */
  lemma AddFieldRejectsDuplicate(cs: seq<Field>, id: int, area: string, notes: Option<string>)
    ensures var r := AddField(cs, true, id, area, notes);
      && (r.outcome == FieldExists <==> exists i :: 0 <= i < |cs| && cs[i].field == id)
      && (r.outcome == FieldAdded ==>
            && r.contracts[..|cs|] == cs
            && r.contracts[|cs|] == Field(id, area, if notes.Some? then notes.value else "", [])
            && forall i :: 0 <= i < |r.contracts| && r.contracts[i].field == id ==> i == |cs|)
  {
    var r := AddField(cs, true, id, area, notes);
    if r.outcome == FieldAdded {
      assert r.contracts[..|cs|] == cs;
    }
  }

  /** Addtask appends an available, unclaimed task to the first field with the id, even when
      the field already has a task with that name; nothing else changes. */
  lemma AddTaskAppends(cs: seq<Field>, id: int, name: string, reward: string)
    ensures var r := AddTask(cs, true, id, name, reward);
      && (r.outcome == FieldNotFound <==> NoMatch(cs, HasId(id)))
      && (r.outcome.TaskAdded? ==>
            var c := r.outcome.c;
            && IsFirst(cs, HasId(id), c)
            && |r.contracts| == |cs|
            && (forall i :: 0 <= i < |cs| && i != c ==> r.contracts[i] == cs[i])
            && r.contracts[c].field == id && r.contracts[c].area == cs[c].area && r.contracts[c].notes == cs[c].notes
            && r.contracts[c].tasks[..|cs[c].tasks|] == cs[c].tasks
            && r.contracts[c].tasks[|cs[c].tasks|] == Task(name, reward, Available, None, None))
  {
    var r := AddTask(cs, true, id, name, reward);
    if r.outcome.TaskAdded? {
      var c := r.outcome.c;
      assert r.contracts[c].tasks[..|cs[c].tasks|] == cs[c].tasks;
    }
  }

  /** Task names are not checked: adding a task whose name the field already has leaves two
      tasks with that name in the field. */
  lemma AddTaskCanDuplicateName(cs: seq<Field>, id: int, name: string, reward: string, k: nat)
    requires FieldIndex(cs, id).Some?
    requires k < |cs[FieldIndex(cs, id).value].tasks| && cs[FieldIndex(cs, id).value].tasks[k].name == name
    ensures var c := FieldIndex(cs, id).value;
      var ts := AddTask(cs, true, id, name, reward).contracts[c].tasks;
      && |ts| == |cs[c].tasks| + 1
      && ts[k].name == name && ts[|cs[c].tasks|].name == name && k != |cs[c].tasks|
  {
  }

  /** Deletefield removes exactly the first field with the id (with its tasks); the other
      fields keep their order. */
  lemma DeleteFieldRemovesFirst(cs: seq<Field>, id: int)
    ensures var r := DeleteField(cs, true, id);
      && (r.outcome == FieldNotFound <==> NoMatch(cs, HasId(id)))
      && (r.outcome.FieldDeleted? ==>
            IsFirst(cs, HasId(id), r.outcome.c) &&
            r.contracts == cs[..r.outcome.c] + cs[r.outcome.c + 1..])
  {
  }

  /** Deletetask removes exactly the first task with the name, whatever its status, from the
      first field with the id; all other tasks and fields keep their order. */
  lemma DeleteTaskRemovesFirst(cs: seq<Field>, id: int, name: string)
    ensures var r := DeleteTask(cs, true, id, name);
      && (r.outcome == FieldNotFound <==> NoMatch(cs, HasId(id)))
      && (r.outcome == TaskNotFound <==>
            exists c :: IsFirst(cs, HasId(id), c) && NoMatch(cs[c].tasks, Named(name)))
      && (r.outcome.TaskDeleted? ==>
            var c, t := r.outcome.c, r.outcome.t;
            && IsFirst(cs, HasId(id), c) && IsFirst(cs[c].tasks, Named(name), t)
            && r.contracts == cs[c := cs[c].(tasks := cs[c].tasks[..t] + cs[c].tasks[t + 1..])])
  {
    match FieldIndex(cs, id)
    case None =>
    case Some(c) =>
      forall c' | IsFirst(cs, HasId(id), c') ensures c' == c {}
  }

  // ---------------------------------------------------------------------------------------
  // Round trips

  /** Writing a task twice keeps only the second write. */
  lemma SetTaskTwice(cs: seq<Field>, c: nat, t: nat, x: Task, y: Task)
    requires c < |cs| && t < |cs[c].tasks|
    ensures SetTask(SetTask(cs, c, t, x), c, t, y) == SetTask(cs, c, t, y)
  {
    assert cs[c].tasks[t := x][t := y] == cs[c].tasks[t := y];
  }

  /** Writing back the task that was there gives back the store. */
  lemma SetTaskSame(cs: seq<Field>, c: nat, t: nat)
    requires c < |cs| && t < |cs[c].tasks|
    ensures SetTask(cs, c, t, cs[c].tasks[t]) == cs
  {
    assert cs[c].tasks[t := cs[c].tasks[t]] == cs[c].tasks;
  }

  /** Claiming a task and cancelling it gives back the store as it was. */
  lemma ClaimThenCancelRestores(cs: seq<Field>, id: int, name: string, user: User)
    requires ClaimsTracked(cs)
    ensures var a := Claim(cs, id, name, user);
      a.outcome.TaskClaimed? ==>
        Cancel(a.contracts, user) == Transition(TaskCancelled(a.outcome.c, a.outcome.t), cs)
  {
    var a := Claim(cs, id, name, user);
    if a.outcome.TaskClaimed? {
      var c, t := a.outcome.c, a.outcome.t;
      ClaimGivesSoleClaim(cs, id, name, user);
      assert ClaimTracked(cs[c].tasks[t]);
      assert CancelTask(a.contracts[c].tasks[t]) == cs[c].tasks[t];
      SetTaskTwice(cs, c, t, a.contracts[c].tasks[t], cs[c].tasks[t]);
      SetTaskSame(cs, c, t);
    }
  }

  /** Claim, complete, then reopen gives back the store as it was, provided no field with
      that id holds a completed task of that name beforehand. */
  lemma ClaimCompleteReopenRestores(cs: seq<Field>, id: int, name: string, user: User)
    requires ClaimsTracked(cs) && CompletionsTracked(cs)
    requires forall c, j :: 0 <= c < |cs| && 0 <= j < |cs[c].tasks| && cs[c].field == id ==>
      !NamedWith(name, Completed)(cs[c].tasks[j])
    ensures var a := Claim(cs, id, name, user);
      a.outcome.TaskClaimed? ==>
        var b := Complete(a.contracts, user);
        && b.outcome == TaskCompleted(a.outcome.c, a.outcome.t)
        && Reopen(b.contracts, true, id, name) == Transition(TaskReopened(a.outcome.c, a.outcome.t), cs)
  {
    var a := Claim(cs, id, name, user);
    if a.outcome.TaskClaimed? {
      var c, t := a.outcome.c, a.outcome.t;
      ClaimGivesSoleClaim(cs, id, name, user);
      var b := Complete(a.contracts, user);
      assert b.outcome == TaskCompleted(c, t);
      assert FieldIndex(b.contracts, id) == Some(c) by {
        assert forall j :: 0 <= j < |cs| ==> b.contracts[j].field == cs[j].field;
      }
      var ts := b.contracts[c].tasks;
      assert FirstIndex(ts, NamedWith(name, Completed)) == Some(t) by {
        assert forall j :: 0 <= j < |ts| && j != t ==> ts[j] == cs[c].tasks[j];
      }
      assert ClaimTracked(cs[c].tasks[t]) && CompletionTracked(cs[c].tasks[t]);
      assert ReopenTask(ts[t]) == cs[c].tasks[t];
      SetTaskTwice(cs, c, t, a.contracts[c].tasks[t], ts[t]);
      SetTaskTwice(cs, c, t, ts[t], cs[c].tasks[t]);
      SetTaskSame(cs, c, t);
    }
  }

  /** Deleting the field that holds a user's claim leaves them nothing to complete. */
  lemma DeleteFieldDropsClaim(cs: seq<Field>, id: int, user: User, t: int)
    requires SingleClaim(cs)
    ensures var r := DeleteField(cs, true, id);
      r.outcome.FieldDeleted? && IsClaimBy(cs, r.outcome.c, t, user) ==>
        Complete(r.contracts, user).outcome == NothingToComplete
  {
    var r := DeleteField(cs, true, id);
    if r.outcome.FieldDeleted? && IsClaimBy(cs, r.outcome.c, t, user) {
      var i := r.outcome.c;
      forall c', t' | IsClaimBy(r.contracts, c', t', user) ensures false {
        assert IsClaimBy(cs, if c' < i then c' else c' + 1, t', user);
      }
    }
  }

  // ---------------------------------------------------------------------------------------
  // Where the older inline handler differs

  /** Legacy /complete addresses the same task and gives the same reply; the stores differ
      only in that task's `completedBy`, which legacy leaves as it was. */
  lemma LegacyCompleteDiffersOnlyInCompleter(cs: seq<Field>, user: User)
    ensures var r, l := Complete(cs, user), LegacyComplete(cs, user);
      && l.outcome == r.outcome
      && (r.outcome.TaskCompleted? ==>
            var c, t := r.outcome.c, r.outcome.t;
            && r.contracts[c].tasks[t].completedBy == Some(user)
            && l.contracts == SetTask(r.contracts, c, t, r.contracts[c].tasks[t].(completedBy := cs[c].tasks[t].completedBy)))
  {
    var r, l := Complete(cs, user), LegacyComplete(cs, user);
    if r.outcome.TaskCompleted? {
      var c, t := r.outcome.c, r.outcome.t;
      SetTaskTwice(cs, c, t, r.contracts[c].tasks[t], l.contracts[c].tasks[t]);
    }
  }

  /** On a store where completedBy is tracked, legacy /complete leaves a completed task with
      no completer, so the store no longer tracks it. */
  lemma LegacyCompleteDropsCompleter(cs: seq<Field>, user: User)
    requires CompletionsTracked(cs) && HoldsClaim(cs, user)
    ensures !CompletionsTracked(LegacyComplete(cs, user).contracts)
  {
    var l := LegacyComplete(cs, user);
    var c, t := l.outcome.c, l.outcome.t;
    assert CompletionTracked(cs[c].tasks[t]);
    assert !CompletionTracked(l.contracts[c].tasks[t]);
  }

  /** The legacy private button gives the same replies as the module button; on a completion
      the stores differ only in that task's `completedBy`, which legacy leaves as it was. */
  lemma LegacyButtonDiffersOnlyInCompleter(cs: seq<Field>, c: Option<int>, t: Option<int>, user: User)
    ensures var r, l := CompleteAt(cs, c, t, user), LegacyCompleteAt(cs, c, t, user);
      && l.outcome == r.outcome
      && (r.outcome.TaskCompleted? ==>
            var i, j := r.outcome.c, r.outcome.t;
            && r.contracts[i].tasks[j].completedBy == Some(user)
            && l.contracts == SetTask(r.contracts, i, j, r.contracts[i].tasks[j].(completedBy := cs[i].tasks[j].completedBy)))
  {
    var r, l := CompleteAt(cs, c, t, user), LegacyCompleteAt(cs, c, t, user);
    if r.outcome.TaskCompleted? {
      var i, j := r.outcome.c, r.outcome.t;
      SetTaskTwice(cs, i, j, r.contracts[i].tasks[j], l.contracts[i].tasks[j]);
    }
  }

  /** On a store where completedBy is tracked, a completion by the legacy button leaves a
      completed task with no completer, so the store no longer tracks it. */
  lemma LegacyButtonDropsCompleter(cs: seq<Field>, c: Option<int>, t: Option<int>, user: User)
    requires CompletionsTracked(cs)
    ensures var l := LegacyCompleteAt(cs, c, t, user);
      l.outcome.TaskCompleted? ==> !CompletionsTracked(l.contracts)
  {
    var l := LegacyCompleteAt(cs, c, t, user);
    if l.outcome.TaskCompleted? {
      assert CompletionTracked(cs[c.value].tasks[t.value]);
      assert !CompletionTracked(l.contracts[c.value].tasks[t.value]);
    }
  }

  /** Legacy /reopen addresses the same task and gives the same reply; the stores differ only
      in that task's `completedBy`, which legacy keeps instead of clearing. */
  lemma LegacyReopenDiffersOnlyInCompleter(cs: seq<Field>, isAdmin: bool, id: int, name: string)
    ensures var r, l := Reopen(cs, isAdmin, id, name), LegacyReopen(cs, isAdmin, id, name);
      && l.outcome == r.outcome
      && (r.outcome.TaskReopened? ==>
            var i, j := r.outcome.c, r.outcome.t;
            && r.contracts[i].tasks[j].completedBy.None?
            && l.contracts == SetTask(r.contracts, i, j, r.contracts[i].tasks[j].(completedBy := cs[i].tasks[j].completedBy)))
  {
    var r, l := Reopen(cs, isAdmin, id, name), LegacyReopen(cs, isAdmin, id, name);
    if r.outcome.TaskReopened? {
      var i, j := r.outcome.c, r.outcome.t;
      SetTaskTwice(cs, i, j, r.contracts[i].tasks[j], l.contracts[i].tasks[j]);
    }
  }

  /** Legacy /reopen leaves the reopened task available and unclaimed but with its old
      completer; on a store where completedBy is tracked that completer is present, so the
      store no longer tracks it. */
  lemma LegacyReopenKeepsCompleter(cs: seq<Field>, id: int, name: string)
    requires CompletionsTracked(cs)
    ensures var l := LegacyReopen(cs, true, id, name);
      l.outcome.TaskReopened? ==>
        var c, t := l.outcome.c, l.outcome.t;
        && l.contracts[c].tasks[t].status == Available
        && l.contracts[c].tasks[t].claimedBy.None?
        && l.contracts[c].tasks[t].completedBy == cs[c].tasks[t].completedBy
        && l.contracts[c].tasks[t].completedBy.Some?
        && !CompletionsTracked(l.contracts)
  {
    var l := LegacyReopen(cs, true, id, name);
    if l.outcome.TaskReopened? {
      var c, t := l.outcome.c, l.outcome.t;
      assert CompletionTracked(cs[c].tasks[t]);
      assert !CompletionTracked(l.contracts[c].tasks[t]);
    }
  }
}
