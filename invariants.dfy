/** Which consistency rules each transition keeps: "claimedBy is set exactly when claimed",
    "completedBy is set exactly when completed", "one claimed task per user" and "unique
    field ids". */
module Invariants {
  import opened Optional
  import opened Contracts
  import opened StateMachine

  // ---------------------------------------------------------------------------------------
  // Frame lemmas for the three ways the store is edited

  /** Overwriting one task keeps every rule the new task itself satisfies; a task that is not
      claimed adds no claim. */
  lemma SetTaskKeeps(cs: seq<Field>, c: nat, t: nat, nt: Task)
    requires c < |cs| && t < |cs[c].tasks|
    ensures var r := SetTask(cs, c, t, nt);
      && (UniqueIds(cs) ==> UniqueIds(r))
      && (ClaimsTracked(cs) && ClaimTracked(nt) ==> ClaimsTracked(r))
      && (CompletionsTracked(cs) && CompletionTracked(nt) ==> CompletionsTracked(r))
      && (nt.status != Claimed ==> forall u, c', t' :: IsClaimBy(r, c', t', u) ==> IsClaimBy(cs, c', t', u))
      && (SingleClaim(cs) && nt.status != Claimed ==> SingleClaim(r))
  {
    var r := SetTask(cs, c, t, nt);
    if nt.status != Claimed {
      forall u, c', t' | IsClaimBy(r, c', t', u) ensures IsClaimBy(cs, c', t', u) {
        assert c' != c || t' != t;
      }
    }
  }

  /** Claiming a task for a user who holds no claim keeps one claim per user. */
  lemma ClaimTaskKeepsSingle(cs: seq<Field>, c: nat, t: nat, user: User)
    requires c < |cs| && t < |cs[c].tasks|
    requires SingleClaim(cs) && !HoldsClaim(cs, user)
    ensures SingleClaim(SetTask(cs, c, t, ClaimTask(cs[c].tasks[t], user)))
  {
    var r := SetTask(cs, c, t, ClaimTask(cs[c].tasks[t], user));
    forall u, c', t' | IsClaimBy(r, c', t', u) && (c' != c || t' != t)
      ensures IsClaimBy(cs, c', t', u) && u != user
    {
      assert IsClaimBy(cs, c', t', u);
    }
  }

  /** Removing a field keeps every rule. */
  lemma RemoveFieldKeeps(cs: seq<Field>, i: nat)
    requires i < |cs|
    ensures var r := RemoveAt(cs, i);
      && (UniqueIds(cs) ==> UniqueIds(r))
      && (ClaimsTracked(cs) ==> ClaimsTracked(r))
      && (CompletionsTracked(cs) ==> CompletionsTracked(r))
      && (forall u, c', t' :: IsClaimBy(r, c', t', u) ==> IsClaimBy(cs, if c' < i then c' else c' + 1, t', u))
      && (SingleClaim(cs) ==> SingleClaim(r))
  {
    var r := RemoveAt(cs, i);
    forall u, c', t' | IsClaimBy(r, c', t', u)
      ensures IsClaimBy(cs, if c' < i then c' else c' + 1, t', u)
    {
    }
    if UniqueIds(cs) {
      forall a, b | 0 <= a < b < |r| ensures r[a].field != r[b].field {
        var a' := if a < i then a else a + 1;
        var b' := if b < i then b else b + 1;
        assert r[a] == cs[a'] && r[b] == cs[b'];
      }
    }
    if ClaimsTracked(cs) {
      forall c', t' | 0 <= c' < |r| && 0 <= t' < |r[c'].tasks| ensures ClaimTracked(r[c'].tasks[t']) {
        var d := if c' < i then c' else c' + 1;
        assert r[c'] == cs[d];
      }
    }
    if CompletionsTracked(cs) {
      forall c', t' | 0 <= c' < |r| && 0 <= t' < |r[c'].tasks| ensures CompletionTracked(r[c'].tasks[t']) {
        var d := if c' < i then c' else c' + 1;
        assert r[c'] == cs[d];
      }
    }
  }

  /** Replacing a field's task list by one whose tasks are copies of old tasks (task `j` of
      the new list is old task `from(j)`, no old claimed task copied twice) or fresh available
      tasks keeps every rule; appending a task and removing a task are the two uses. */
  lemma WithTasksKeeps(cs: seq<Field>, c: nat, ts: seq<Task>, from: nat -> nat)
    requires c < |cs|
    requires forall j :: 0 <= j < |ts| ==>
      || (from(j) < |cs[c].tasks| && ts[j] == cs[c].tasks[from(j)])
      || (ts[j].status == Available && ts[j].claimedBy.None? && ts[j].completedBy.None?)
    requires forall j, k :: 0 <= j < k < |ts| && ts[j].status == Claimed && ts[k].status == Claimed ==> from(j) != from(k)
    ensures var r := WithTasks(cs, c, ts);
      && (UniqueIds(cs) ==> UniqueIds(r))
      && (ClaimsTracked(cs) ==> ClaimsTracked(r))
      && (CompletionsTracked(cs) ==> CompletionsTracked(r))
      && (forall u, c', t' :: IsClaimBy(r, c', t', u) ==> IsClaimBy(cs, c', if c' == c then from(t') else t', u))
      && (SingleClaim(cs) ==> SingleClaim(r))
  {
    var r := WithTasks(cs, c, ts);
    forall u, c', t' | IsClaimBy(r, c', t', u)
      ensures IsClaimBy(cs, c', if c' == c then from(t') else t', u)
    {
    }
    if ClaimsTracked(cs) {
      forall c', t' | 0 <= c' < |r| && 0 <= t' < |r[c'].tasks| ensures ClaimTracked(r[c'].tasks[t']) {
        if c' == c && from(t') < |cs[c].tasks| && ts[t'] == cs[c].tasks[from(t')] {
          assert ClaimTracked(cs[c].tasks[from(t')]);
        }
      }
    }
    if CompletionsTracked(cs) {
      forall c', t' | 0 <= c' < |r| && 0 <= t' < |r[c'].tasks| ensures CompletionTracked(r[c'].tasks[t']) {
        if c' == c && from(t') < |cs[c].tasks| && ts[t'] == cs[c].tasks[from(t')] {
          assert CompletionTracked(cs[c].tasks[from(t')]);
        }
      }
    }
    if SingleClaim(cs) {
      forall u, c1, t1, c2, t2 | IsClaimBy(r, c1, t1, u) && IsClaimBy(r, c2, t2, u)
        ensures c1 == c2 && t1 == t2
      {
        var d1 := if c1 == c then from(t1) else t1;
        var d2 := if c2 == c then from(t2) else t2;
        assert IsClaimBy(cs, c1, d1, u);
        assert IsClaimBy(cs, c2, d2, u);
      }
    }
  }

  // ---------------------------------------------------------------------------------------
  // Each transition

  lemma ClaimKeepsValid(cs: seq<Field>, id: int, name: string, user: User)
    ensures Valid(cs) ==> Valid(Claim(cs, id, name, user).contracts)
    ensures LegacyValid(cs) ==> LegacyValid(Claim(cs, id, name, user).contracts)
  {
    var r := Claim(cs, id, name, user);
    if r.outcome.TaskClaimed? {
      var c, t := r.outcome.c, r.outcome.t;
      SetTaskKeeps(cs, c, t, ClaimTask(cs[c].tasks[t], user));
      if SingleClaim(cs) {
        ClaimTaskKeepsSingle(cs, c, t, user);
      }
    }
  }

  lemma CompleteKeepsValid(cs: seq<Field>, user: User)
    ensures Valid(cs) ==> Valid(Complete(cs, user).contracts)
    ensures LegacyValid(cs) ==> LegacyValid(Complete(cs, user).contracts)
  {
    var r := Complete(cs, user);
    if r.outcome.TaskCompleted? {
      var c, t := r.outcome.c, r.outcome.t;
      SetTaskKeeps(cs, c, t, CompleteTask(cs[c].tasks[t], user));
    }
  }

  lemma LegacyCompleteKeepsLegacyValid(cs: seq<Field>, user: User)
    ensures LegacyValid(cs) ==> LegacyValid(LegacyComplete(cs, user).contracts)
  {
    var r := LegacyComplete(cs, user);
    if r.outcome.TaskCompleted? {
      var c, t := r.outcome.c, r.outcome.t;
      SetTaskKeeps(cs, c, t, LegacyCompleteTask(cs[c].tasks[t]));
    }
  }

  lemma CancelKeepsValid(cs: seq<Field>, user: User)
    ensures Valid(cs) ==> Valid(Cancel(cs, user).contracts)
    ensures LegacyValid(cs) ==> LegacyValid(Cancel(cs, user).contracts)
  {
    var r := Cancel(cs, user);
    if r.outcome.TaskCancelled? {
      var c, t := r.outcome.c, r.outcome.t;
      SetTaskKeeps(cs, c, t, CancelTask(cs[c].tasks[t]));
    }
  }

  lemma CompleteAtKeepsValid(cs: seq<Field>, c: Option<int>, t: Option<int>, user: User)
    ensures Valid(cs) ==> Valid(CompleteAt(cs, c, t, user).contracts)
    ensures LegacyValid(cs) ==> LegacyValid(CompleteAt(cs, c, t, user).contracts)
  {
    var r := CompleteAt(cs, c, t, user);
    if r.outcome.TaskCompleted? {
      SetTaskKeeps(cs, c.value, t.value, CompleteTask(cs[c.value].tasks[t.value], user));
    }
  }

  lemma LegacyCompleteAtKeepsLegacyValid(cs: seq<Field>, c: Option<int>, t: Option<int>, user: User)
    ensures LegacyValid(cs) ==> LegacyValid(LegacyCompleteAt(cs, c, t, user).contracts)
  {
    var r := LegacyCompleteAt(cs, c, t, user);
    if r.outcome.TaskCompleted? {
      SetTaskKeeps(cs, c.value, t.value, LegacyCompleteTask(cs[c.value].tasks[t.value]));
    }
  }

  lemma ReopenKeepsValid(cs: seq<Field>, isAdmin: bool, id: int, name: string)
    ensures Valid(cs) ==> Valid(Reopen(cs, isAdmin, id, name).contracts)
    ensures LegacyValid(cs) ==> LegacyValid(Reopen(cs, isAdmin, id, name).contracts)
  {
    var r := Reopen(cs, isAdmin, id, name);
    if r.outcome.TaskReopened? {
      var c, t := r.outcome.c, r.outcome.t;
      SetTaskKeeps(cs, c, t, ReopenTask(cs[c].tasks[t]));
    }
  }

  lemma LegacyReopenKeepsLegacyValid(cs: seq<Field>, isAdmin: bool, id: int, name: string)
    ensures LegacyValid(cs) ==> LegacyValid(LegacyReopen(cs, isAdmin, id, name).contracts)
  {
    var r := LegacyReopen(cs, isAdmin, id, name);
    if r.outcome.TaskReopened? {
      var c, t := r.outcome.c, r.outcome.t;
      SetTaskKeeps(cs, c, t, LegacyReopenTask(cs[c].tasks[t]));
    }
  }

  lemma AddFieldKeepsValid(cs: seq<Field>, isAdmin: bool, id: int, area: string, notes: Option<string>)
    ensures Valid(cs) ==> Valid(AddField(cs, isAdmin, id, area, notes).contracts)
    ensures LegacyValid(cs) ==> LegacyValid(AddField(cs, isAdmin, id, area, notes).contracts)
  {
    var r := AddField(cs, isAdmin, id, area, notes);
    if r.outcome == FieldAdded {
      assert forall u, c', t' :: IsClaimBy(r.contracts, c', t', u) ==> IsClaimBy(cs, c', t', u);
    }
  }

  lemma AddTaskKeepsValid(cs: seq<Field>, isAdmin: bool, id: int, name: string, reward: string)
    ensures Valid(cs) ==> Valid(AddTask(cs, isAdmin, id, name, reward).contracts)
    ensures LegacyValid(cs) ==> LegacyValid(AddTask(cs, isAdmin, id, name, reward).contracts)
  {
    var r := AddTask(cs, isAdmin, id, name, reward);
    if r.outcome.TaskAdded? {
      var c := r.outcome.c;
      WithTasksKeeps(cs, c, cs[c].tasks + [NewTask(name, reward)], j => j);
    }
  }

  lemma DeleteFieldKeepsValid(cs: seq<Field>, isAdmin: bool, id: int)
    ensures Valid(cs) ==> Valid(DeleteField(cs, isAdmin, id).contracts)
    ensures LegacyValid(cs) ==> LegacyValid(DeleteField(cs, isAdmin, id).contracts)
  {
    var r := DeleteField(cs, isAdmin, id);
    if r.outcome.FieldDeleted? {
      RemoveFieldKeeps(cs, r.outcome.c);
    }
  }

  lemma DeleteTaskKeepsValid(cs: seq<Field>, isAdmin: bool, id: int, name: string)
    ensures Valid(cs) ==> Valid(DeleteTask(cs, isAdmin, id, name).contracts)
    ensures LegacyValid(cs) ==> LegacyValid(DeleteTask(cs, isAdmin, id, name).contracts)
  {
    var r := DeleteTask(cs, isAdmin, id, name);
    if r.outcome.TaskDeleted? {
      var c, t := r.outcome.c, r.outcome.t;
      var ts := cs[c].tasks;
      WithTasksKeeps(cs, c, RemoveAt(ts, t), j => if j < t then j else j + 1);
    }
  }

  // ---------------------------------------------------------------------------------------
  // Any request, any sequence of requests

  lemma ApplyKeepsValid(cs: seq<Field>, req: Request, user: User, isAdmin: bool)
    ensures Valid(cs) ==> Valid(Apply(cs, req, user, isAdmin).contracts)
    ensures LegacyValid(cs) ==> LegacyValid(Apply(cs, req, user, isAdmin).contracts)
  {
    match req
    case Claiming(id, name) => ClaimKeepsValid(cs, id, name, user);
    case Completing => CompleteKeepsValid(cs, user);
    case Cancelling => CancelKeepsValid(cs, user);
    case PressingComplete(c, t) => CompleteAtKeepsValid(cs, c, t, user);
    case Reopening(id, name) => ReopenKeepsValid(cs, isAdmin, id, name);
    case AddingField(id, area, notes) => AddFieldKeepsValid(cs, isAdmin, id, area, notes);
    case AddingTask(id, name, reward) => AddTaskKeepsValid(cs, isAdmin, id, name, reward);
    case DeletingField(id) => DeleteFieldKeepsValid(cs, isAdmin, id);
    case DeletingTask(id, name) => DeleteTaskKeepsValid(cs, isAdmin, id, name);
  }

  lemma LegacyApplyKeepsLegacyValid(cs: seq<Field>, req: Request, user: User, isAdmin: bool)
    ensures LegacyValid(cs) ==> LegacyValid(LegacyApply(cs, req, user, isAdmin).contracts)
  {
    match req
    case Completing => LegacyCompleteKeepsLegacyValid(cs, user);
    case PressingComplete(c, t) => LegacyCompleteAtKeepsLegacyValid(cs, c, t, user);
    case Reopening(id, name) => LegacyReopenKeepsLegacyValid(cs, isAdmin, id, name);
    case _ => ApplyKeepsValid(cs, req, user, isAdmin);
  }

  /** Only /claim ever gives a user a claim; every other request keeps or removes claims. */
  lemma OnlyClaimingAddsClaims(cs: seq<Field>, req: Request, user: User, isAdmin: bool, u: User)
    requires !req.Claiming?
    ensures HoldsClaim(Apply(cs, req, user, isAdmin).contracts, u) ==> HoldsClaim(cs, u)
  {
    var r := Apply(cs, req, user, isAdmin);
    match req {
      case Completing =>
        if r.outcome.TaskCompleted? {
          var c, t := r.outcome.c, r.outcome.t;
          SetTaskKeeps(cs, c, t, CompleteTask(cs[c].tasks[t], user));
        }
      case Cancelling =>
        if r.outcome.TaskCancelled? {
          var c, t := r.outcome.c, r.outcome.t;
          SetTaskKeeps(cs, c, t, CancelTask(cs[c].tasks[t]));
        }
      case PressingComplete(c, t) =>
        if r.outcome.TaskCompleted? {
          SetTaskKeeps(cs, c.value, t.value, CompleteTask(cs[c.value].tasks[t.value], user));
        }
      case Reopening(id, name) =>
        if r.outcome.TaskReopened? {
          var c, t := r.outcome.c, r.outcome.t;
          SetTaskKeeps(cs, c, t, ReopenTask(cs[c].tasks[t]));
        }
      case AddingField(_, _, _) => AdminRequestsAddNoClaims(cs, req, user, isAdmin, u);
      case AddingTask(_, _, _) => AdminRequestsAddNoClaims(cs, req, user, isAdmin, u);
      case DeletingField(_) => AdminRequestsAddNoClaims(cs, req, user, isAdmin, u);
      case DeletingTask(_, _) => AdminRequestsAddNoClaims(cs, req, user, isAdmin, u);
    }
  }

  /** The four admin edits never give anyone a claim. */
  lemma AdminRequestsAddNoClaims(cs: seq<Field>, req: Request, user: User, isAdmin: bool, u: User)
    requires req.AddingField? || req.AddingTask? || req.DeletingField? || req.DeletingTask?
    ensures HoldsClaim(Apply(cs, req, user, isAdmin).contracts, u) ==> HoldsClaim(cs, u)
  {
    var r := Apply(cs, req, user, isAdmin);
    match req {
      case AddingField(id, area, notes) =>
        assert forall c', t' :: IsClaimBy(r.contracts, c', t', u) ==> IsClaimBy(cs, c', t', u);
      case AddingTask(id, name, reward) =>
        if r.outcome.TaskAdded? {
          var c := r.outcome.c;
          WithTasksKeeps(cs, c, cs[c].tasks + [NewTask(name, reward)], j => j);
        }
      case DeletingField(id) =>
        if r.outcome.FieldDeleted? {
          RemoveFieldKeeps(cs, r.outcome.c);
        }
      case DeletingTask(id, name) =>
        if r.outcome.TaskDeleted? {
          var c, t := r.outcome.c, r.outcome.t;
          WithTasksKeeps(cs, c, RemoveAt(cs[c].tasks, t), j => if j < t then j else j + 1);
        }
    }
  }

  /** The same in the older inline handler. */
  lemma LegacyOnlyClaimingAddsClaims(cs: seq<Field>, req: Request, user: User, isAdmin: bool, u: User)
    requires !req.Claiming?
    ensures HoldsClaim(LegacyApply(cs, req, user, isAdmin).contracts, u) ==> HoldsClaim(cs, u)
  {
    var l := LegacyApply(cs, req, user, isAdmin);
    match req {
      case Completing =>
        if l.outcome.TaskCompleted? {
          var c, t := l.outcome.c, l.outcome.t;
          SetTaskKeeps(cs, c, t, LegacyCompleteTask(cs[c].tasks[t]));
        }
      case PressingComplete(c, t) =>
        if l.outcome.TaskCompleted? {
          SetTaskKeeps(cs, c.value, t.value, LegacyCompleteTask(cs[c.value].tasks[t.value]));
        }
      case Reopening(id, name) =>
        if l.outcome.TaskReopened? {
          var c, t := l.outcome.c, l.outcome.t;
          SetTaskKeeps(cs, c, t, LegacyReopenTask(cs[c].tasks[t]));
        }
      case _ => OnlyClaimingAddsClaims(cs, req, user, isAdmin, u);
    }
  }

  /** One handler invocation: the request, the acting user, and whether they have ManageGuild. */
  datatype Step = Step(req: Request, user: User, isAdmin: bool)

  /** The store after the handler modules process `steps` one after another. */
  function Run(cs: seq<Field>, steps: seq<Step>): seq<Field>
    decreases |steps|
  {
    if |steps| == 0 then cs
    else Run(Apply(cs, steps[0].req, steps[0].user, steps[0].isAdmin).contracts, steps[1..])
  }

  /** The store after the older inline handler processes `steps` one after another. */
  function LegacyRun(cs: seq<Field>, steps: seq<Step>): seq<Field>
    decreases |steps|
  {
    if |steps| == 0 then cs
    else LegacyRun(LegacyApply(cs, steps[0].req, steps[0].user, steps[0].isAdmin).contracts, steps[1..])
  }

  /** After any sequence of requests every user holds at most one claimed task, claimedBy and
      completedBy are set exactly in the claimed and completed states, and ids stay unique. */
  lemma {:induction false} RunKeepsValid(cs: seq<Field>, steps: seq<Step>)
    requires Valid(cs)
    ensures Valid(Run(cs, steps))
    decreases |steps|
  {
    if |steps| > 0 {
      ApplyKeepsValid(cs, steps[0].req, steps[0].user, steps[0].isAdmin);
      RunKeepsValid(Apply(cs, steps[0].req, steps[0].user, steps[0].isAdmin).contracts, steps[1..]);
    }
  }

  /** The older inline handler keeps the same rules except the one about completedBy. */
  lemma {:induction false} LegacyRunKeepsLegacyValid(cs: seq<Field>, steps: seq<Step>)
    requires LegacyValid(cs)
    ensures LegacyValid(LegacyRun(cs, steps))
    decreases |steps|
  {
    if |steps| > 0 {
      LegacyApplyKeepsLegacyValid(cs, steps[0].req, steps[0].user, steps[0].isAdmin);
      LegacyRunKeepsLegacyValid(LegacyApply(cs, steps[0].req, steps[0].user, steps[0].isAdmin).contracts, steps[1..]);
    }
  }
}
