/** The slash-command handlers (handlers/commandHandlers.js). Each reads a fresh snapshot of
    the store, edits it, writes it back when it succeeds, and replies; the reply is the returned
    outcome, and the new store content is the one the state machine gives for the snapshot. */
module CommandHandlers {
  import opened Optional
  import opened Contracts
  import opened StateMachine
  import opened Board

  /** The nested `for ... of contracts.entries()` / `contract.tasks.entries()` scan of /complete
      and /cancel: it stops at the first task claimed by `user`, fields in order, then tasks in
      order. */
  method FindClaim(cs: seq<Field>, user: User) returns (p: Option<(nat, nat)>)
    ensures p == FirstClaimOf(cs, user)
  {
    var found := false;
    p := None;
    var c := 0;
    while c < |cs|
      invariant 0 <= c <= |cs|
      invariant !found && p.None?
      invariant forall c', t' :: IsClaimBy(cs, c', t', user) ==> c' >= c
    {
      var t := 0;
      while t < |cs[c].tasks|
        invariant 0 <= t <= |cs[c].tasks|
        invariant !found && p.None?
        invariant forall t' :: 0 <= t' < t ==> !IsClaimBy(cs, c, t', user)
      {
        var task := cs[c].tasks[t];
        if task.status == Claimed && task.claimedBy == Some(user) {
          p := Some((c, t));
          found := true;
          break;
        }
        t := t + 1;
      }
      if found {
        break;
      }
      c := c + 1;
    }
    FirstClaimUnique(cs, user, p);
  }

  /** Two positions that are both the first claim are the same position. */
  lemma FirstClaimUnique(cs: seq<Field>, user: User, p: Option<(nat, nat)>)
    requires p.Some? ==> IsClaimBy(cs, p.value.0, p.value.1, user) && NoClaimBefore(cs, user, p.value.0, p.value.1)
    requires p.None? ==> !HoldsClaim(cs, user)
    ensures p == FirstClaimOf(cs, user)
  {
    var q := FirstClaimOf(cs, user);
    if p.Some? {
      assert q.Some?;
      assert IsClaimBy(cs, q.value.0, q.value.1, user);
    }
  }

  /** `handleClaimCommand`; on success the reply carries the private Complete button for the
      claimed position. */
  method HandleClaim(store: ContractStore, id: int, name: string, user: User) returns (o: Outcome, button: Option<Button>)
    modifies store
    ensures Transition(o, store.contracts) == Claim(old(store.contracts), id, name, user)
    ensures o.TaskClaimed? <==> button.Some?
    ensures o.TaskClaimed? ==>
      button == Some(CompleteButton(o.c, o.t, old(store.contracts)[o.c], old(store.contracts)[o.c].tasks[o.t]))
  {
    var cs := store.Read();
    var c := FieldIndex(cs, id);
    if c.None? {
      return FieldNotFound, None;
    }
    var t := FirstIndex(cs[c.value].tasks, NamedWith(name, Available));
    if t.None? {
      return TaskUnavailable, None;
    }
    if HoldsClaim(cs, user) {
      return AlreadyClaiming, None;
    }
    var task := cs[c.value].tasks[t.value];
    store.Write(SetTask(cs, c.value, t.value, ClaimTask(task, user)));
    o := TaskClaimed(c.value, t.value);
    button := Some(CompleteButton(c.value, t.value, cs[c.value], task));
  }

  /** `handleCompleteCommand`: the first claim of the user is completed and attributed. */
  method HandleComplete(store: ContractStore, user: User) returns (o: Outcome)
    modifies store
    ensures Transition(o, store.contracts) == Complete(old(store.contracts), user)
  {
    var cs := store.Read();
    var p := FindClaim(cs, user);
    if p.None? {
      return NothingToComplete;
    }
    var (c, t) := p.value;
    store.Write(SetTask(cs, c, t, CompleteTask(cs[c].tasks[t], user)));
    o := TaskCompleted(c, t);
  }

  /** `handleCancelCommand`: the first claim of the user is released. */
  method HandleCancel(store: ContractStore, user: User) returns (o: Outcome)
    modifies store
    ensures Transition(o, store.contracts) == Cancel(old(store.contracts), user)
  {
    var cs := store.Read();
    var p := FindClaim(cs, user);
    if p.None? {
      return NothingToCancel;
    }
    var (c, t) := p.value;
    store.Write(SetTask(cs, c, t, CancelTask(cs[c].tasks[t])));
    o := TaskCancelled(c, t);
  }

  /** `handleReopenCommand` (ManageGuild only). */
  method HandleReopen(store: ContractStore, isAdmin: bool, id: int, name: string) returns (o: Outcome)
    modifies store
    ensures Transition(o, store.contracts) == Reopen(old(store.contracts), isAdmin, id, name)
  {
    if !isAdmin {
      return NoPermission;
    }
    var cs := store.Read();
    var c := FieldIndex(cs, id);
    if c.None? {
      return FieldNotFound;
    }
    var t := FirstIndex(cs[c.value].tasks, NamedWith(name, Completed));
    if t.None? {
      return TaskNotCompleted;
    }
    store.Write(SetTask(cs, c.value, t.value, ReopenTask(cs[c.value].tasks[t.value])));
    o := TaskReopened(c.value, t.value);
  }

  /** `handleAddFieldCommand` (ManageGuild only); a missing or empty `notes` option is ''. */
  method HandleAddField(store: ContractStore, isAdmin: bool, id: int, area: string, notes: Option<string>) returns (o: Outcome)
    modifies store
    ensures Transition(o, store.contracts) == AddField(old(store.contracts), isAdmin, id, area, notes)
  {
    if !isAdmin {
      return NoPermission;
    }
    var text := if notes.Some? then notes.value else "";
    var cs := store.Read();
    if FieldIndex(cs, id).Some? {
      return FieldExists;
    }
    store.Write(cs + [Field(id, area, text, [])]);
    o := FieldAdded;
  }

  /** `handleAddTaskCommand` (ManageGuild only). */
  method HandleAddTask(store: ContractStore, isAdmin: bool, id: int, name: string, reward: string) returns (o: Outcome)
    modifies store
    ensures Transition(o, store.contracts) == AddTask(old(store.contracts), isAdmin, id, name, reward)
  {
    if !isAdmin {
      return NoPermission;
    }
    var cs := store.Read();
    var c := FieldIndex(cs, id);
    if c.None? {
      return FieldNotFound;
    }
    store.Write(WithTasks(cs, c.value, cs[c.value].tasks + [NewTask(name, reward)]));
    o := TaskAdded(c.value);
  }

  /** `handleDeleteFieldCommand` (ManageGuild only). */
  method HandleDeleteField(store: ContractStore, isAdmin: bool, id: int) returns (o: Outcome)
    modifies store
    ensures Transition(o, store.contracts) == DeleteField(old(store.contracts), isAdmin, id)
  {
    if !isAdmin {
      return NoPermission;
    }
    var cs := store.Read();
    var c := FieldIndex(cs, id);
    if c.None? {
      return FieldNotFound;
    }
    store.Write(RemoveAt(cs, c.value));
    o := FieldDeleted(c.value);
  }

  /** `handleDeleteTaskCommand` (ManageGuild only). */
  method HandleDeleteTask(store: ContractStore, isAdmin: bool, id: int, name: string) returns (o: Outcome)
    modifies store
    ensures Transition(o, store.contracts) == DeleteTask(old(store.contracts), isAdmin, id, name)
  {
    if !isAdmin {
      return NoPermission;
    }
    var cs := store.Read();
    var c := FieldIndex(cs, id);
    if c.None? {
      return FieldNotFound;
    }
    var t := FirstIndex(cs[c.value].tasks, Named(name));
    if t.None? {
      return TaskNotFound;
    }
    store.Write(WithTasks(cs, c.value, RemoveAt(cs[c.value].tasks, t.value)));
    o := TaskDeleted(c.value, t.value);
  }
}
