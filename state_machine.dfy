/** The task state machine: what each handler does to a snapshot of the store, as a pure
    function from the snapshot (and the handler's typed arguments) to the reply it gives and
    the snapshot it writes back. Replies that write nothing leave the snapshot as it was. */
module StateMachine {
  import opened Optional
  import opened Contracts

  /** The reply branches of the handlers. Positions (c, t) are field and task indices. */
  datatype Outcome =
    | NoPermission                    // caller lacks ManageGuild
    | FieldNotFound                   // "Field <id> not found."
    | TaskUnavailable                 // "Task not found or not available."
    | AlreadyClaiming                 // the user already holds a claimed task
    | TaskClaimed(c: nat, t: nat)     // claimed; the reply carries the private Complete button
    | TaskCompleted(c: nat, t: nat)   // completed; the payout team is notified
    | NothingToComplete               // "You have no claimed contract task to complete."
    | TaskCancelled(c: nat, t: nat)
    | NothingToCancel                 // "You have no claimed contract task to cancel."
    | TaskNotCompleted                // "Task not found or not completed."
    | TaskReopened(c: nat, t: nat)
    | FieldExists                     // "Field <id> already exists."
    | FieldAdded
    | TaskAdded(c: nat)
    | FieldDeleted(c: nat)
    | TaskNotFound                    // "Task '<name>' not found in field <id>."
    | TaskDeleted(c: nat, t: nat)
    | ContractNotFound                // private button: no field at that index
    | NotYourClaim                    // private button: "You can only complete tasks you have claimed."
  {
    /** The replies that follow a `writeContracts`. */
    predicate Writes() {
      TaskClaimed? || TaskCompleted? || TaskCancelled? || TaskReopened? || FieldAdded?
      || TaskAdded? || FieldDeleted? || TaskDeleted?
    }
  }

  datatype Transition = Transition(outcome: Outcome, contracts: seq<Field>)

  // ---------------------------------------------------------------------------------------
  // Single-task transitions

  function ClaimTask(t: Task, user: User): (r: Task)
    ensures r.status == Claimed && r.claimedBy == Some(user)
    ensures r.name == t.name && r.reward == t.reward && r.completedBy == t.completedBy
  {
    t.(status := Claimed, claimedBy := Some(user))
  }

  /** Completion as the handler modules record it: the completer is kept. */
  function CompleteTask(t: Task, user: User): (r: Task)
    ensures r.status == Completed && r.claimedBy.None? && r.completedBy == Some(user)
    ensures r.name == t.name && r.reward == t.reward
  {
    t.(status := Completed, completedBy := Some(user), claimedBy := None)
  }

  /** Completion as the older inline handler records it: `completedBy` is not written. */
  function LegacyCompleteTask(t: Task): (r: Task)
    ensures r.status == Completed && r.claimedBy.None? && r.completedBy == t.completedBy
    ensures r.name == t.name && r.reward == t.reward
  {
    t.(status := Completed, claimedBy := None)
  }

  function CancelTask(t: Task): (r: Task)
    ensures r.status == Available && r.claimedBy.None?
    ensures r.name == t.name && r.reward == t.reward && r.completedBy == t.completedBy
  {
    t.(status := Available, claimedBy := None)
  }

  function ReopenTask(t: Task): (r: Task)
    ensures r.status == Available && r.claimedBy.None? && r.completedBy.None?
    ensures r.name == t.name && r.reward == t.reward
  {
    t.(status := Available, claimedBy := None, completedBy := None)
  }

  /** Reopening in the older inline handler: `completedBy` is left as it was. */
  function LegacyReopenTask(t: Task): (r: Task)
    ensures r.status == Available && r.claimedBy.None? && r.completedBy == t.completedBy
    ensures r.name == t.name && r.reward == t.reward
  {
    t.(status := Available, claimedBy := None)
  }

  /** The task /addtask appends (`completedBy` absent, read as none). */
  function NewTask(name: string, reward: string): (r: Task)
    ensures r.name == name && r.reward == reward
    ensures r.status == Available && r.claimedBy.None? && r.completedBy.None?
  {
    Task(name, reward, Available, None, None)
  }

  // ---------------------------------------------------------------------------------------
  // Store transitions

  /** /claim: first field with the id, then its first available task with the name, then
      the one-claim-per-user rule; only then is the task claimed. */
  function Claim(cs: seq<Field>, id: int, name: string, user: User): (r: Transition)
    ensures !r.outcome.Writes() ==> r.contracts == cs
    ensures r.outcome.TaskClaimed? ==>
      && r.outcome.c < |cs| && r.outcome.t < |cs[r.outcome.c].tasks|
      && r.contracts == SetTask(cs, r.outcome.c, r.outcome.t,
                                ClaimTask(cs[r.outcome.c].tasks[r.outcome.t], user))
  {
    match FieldIndex(cs, id)
    case None => Transition(FieldNotFound, cs)
    case Some(c) =>
      match FirstIndex(cs[c].tasks, NamedWith(name, Available))
      case None => Transition(TaskUnavailable, cs)
      case Some(t) =>
        if HoldsClaim(cs, user) then Transition(AlreadyClaiming, cs)
        else Transition(TaskClaimed(c, t), SetTask(cs, c, t, ClaimTask(cs[c].tasks[t], user)))
  }

  /** /complete: the user's first claimed task becomes completed by them. */
  function Complete(cs: seq<Field>, user: User): (r: Transition)
    ensures !r.outcome.Writes() ==> r.contracts == cs
    ensures r.outcome.TaskCompleted? || r.outcome == NothingToComplete
  {
    match FirstClaimOf(cs, user)
    case None => Transition(NothingToComplete, cs)
    case Some((c, t)) =>
      Transition(TaskCompleted(c, t), SetTask(cs, c, t, CompleteTask(cs[c].tasks[t], user)))
  }

  /** /complete in the older inline handler. */
  function LegacyComplete(cs: seq<Field>, user: User): (r: Transition)
    ensures !r.outcome.Writes() ==> r.contracts == cs
    ensures r.outcome.TaskCompleted? || r.outcome == NothingToComplete
  {
    match FirstClaimOf(cs, user)
    case None => Transition(NothingToComplete, cs)
    case Some((c, t)) =>
      Transition(TaskCompleted(c, t), SetTask(cs, c, t, LegacyCompleteTask(cs[c].tasks[t])))
  }

  /** /cancel: the user's first claimed task becomes available again. */
  function Cancel(cs: seq<Field>, user: User): (r: Transition)
    ensures !r.outcome.Writes() ==> r.contracts == cs
    ensures r.outcome.TaskCancelled? || r.outcome == NothingToCancel
  {
    match FirstClaimOf(cs, user)
    case None => Transition(NothingToCancel, cs)
    case Some((c, t)) =>
      Transition(TaskCancelled(c, t), SetTask(cs, c, t, CancelTask(cs[c].tasks[t])))
  }

  /** The private Complete button, addressed by the (parsed) field and task indices; `None`
      stands for an index that did not parse. */
  function CompleteAt(cs: seq<Field>, c: Option<int>, t: Option<int>, user: User): (r: Transition)
    ensures !r.outcome.Writes() ==> r.contracts == cs
    ensures r.outcome.TaskCompleted? || r.outcome == ContractNotFound || r.outcome == NotYourClaim
    ensures r.outcome.TaskCompleted? ==>
      && c == Some(r.outcome.c) && t == Some(r.outcome.t) && IsClaimBy(cs, r.outcome.c, r.outcome.t, user)
      && r.contracts == SetTask(cs, r.outcome.c, r.outcome.t, CompleteTask(cs[r.outcome.c].tasks[r.outcome.t], user))
  {
    if c.None? || !(0 <= c.value < |cs|) then Transition(ContractNotFound, cs)
    else if t.None? || !(0 <= t.value < |cs[c.value].tasks|)
         || !ClaimedBy(user)(cs[c.value].tasks[t.value]) then Transition(NotYourClaim, cs)
    else
      Transition(TaskCompleted(c.value, t.value),
                 SetTask(cs, c.value, t.value, CompleteTask(cs[c.value].tasks[t.value], user)))
  }

  /** The private Complete button in the older inline handler. */
  function LegacyCompleteAt(cs: seq<Field>, c: Option<int>, t: Option<int>, user: User): (r: Transition)
    ensures !r.outcome.Writes() ==> r.contracts == cs
    ensures r.outcome.TaskCompleted? || r.outcome == ContractNotFound || r.outcome == NotYourClaim
    ensures r.outcome.TaskCompleted? ==>
      && c == Some(r.outcome.c) && t == Some(r.outcome.t) && IsClaimBy(cs, r.outcome.c, r.outcome.t, user)
      && r.contracts == SetTask(cs, r.outcome.c, r.outcome.t, LegacyCompleteTask(cs[r.outcome.c].tasks[r.outcome.t]))
  {
    if c.None? || !(0 <= c.value < |cs|) then Transition(ContractNotFound, cs)
    else if t.None? || !(0 <= t.value < |cs[c.value].tasks|)
         || !ClaimedBy(user)(cs[c.value].tasks[t.value]) then Transition(NotYourClaim, cs)
    else
      Transition(TaskCompleted(c.value, t.value),
                 SetTask(cs, c.value, t.value, LegacyCompleteTask(cs[c.value].tasks[t.value])))
  }

  /** /reopen (admin): the first completed task with the name in the first field with the id. */
  function Reopen(cs: seq<Field>, isAdmin: bool, id: int, name: string): (r: Transition)
    ensures !isAdmin ==> r == Transition(NoPermission, cs)
    ensures !r.outcome.Writes() ==> r.contracts == cs
  {
    if !isAdmin then Transition(NoPermission, cs)
    else
      match FieldIndex(cs, id)
      case None => Transition(FieldNotFound, cs)
      case Some(c) =>
        match FirstIndex(cs[c].tasks, NamedWith(name, Completed))
        case None => Transition(TaskNotCompleted, cs)
        case Some(t) => Transition(TaskReopened(c, t), SetTask(cs, c, t, ReopenTask(cs[c].tasks[t])))
  }

  /** /reopen in the older inline handler. */
  function LegacyReopen(cs: seq<Field>, isAdmin: bool, id: int, name: string): (r: Transition)
    ensures !isAdmin ==> r == Transition(NoPermission, cs)
    ensures !r.outcome.Writes() ==> r.contracts == cs
    ensures r.outcome.TaskReopened? ==>
      && FieldIndex(cs, id) == Some(r.outcome.c)
      && FirstIndex(cs[r.outcome.c].tasks, NamedWith(name, Completed)) == Some(r.outcome.t)
      && r.contracts == SetTask(cs, r.outcome.c, r.outcome.t, LegacyReopenTask(cs[r.outcome.c].tasks[r.outcome.t]))
  {
    if !isAdmin then Transition(NoPermission, cs)
    else
      match FieldIndex(cs, id)
      case None => Transition(FieldNotFound, cs)
      case Some(c) =>
        match FirstIndex(cs[c].tasks, NamedWith(name, Completed))
        case None => Transition(TaskNotCompleted, cs)
        case Some(t) => Transition(TaskReopened(c, t), SetTask(cs, c, t, LegacyReopenTask(cs[c].tasks[t])))
  }

  /** /addfield (admin): a new id is appended with no tasks; `notes` defaults to ''. */
  function AddField(cs: seq<Field>, isAdmin: bool, id: int, area: string, notes: Option<string>): (r: Transition)
    ensures !isAdmin ==> r == Transition(NoPermission, cs)
    ensures !r.outcome.Writes() ==> r.contracts == cs
    ensures r.outcome == FieldAdded ==> r.contracts == cs + [Field(id, area, notes.GetOr(""), [])]
  {
    if !isAdmin then Transition(NoPermission, cs)
    else if FieldIndex(cs, id).Some? then Transition(FieldExists, cs)
    else Transition(FieldAdded, cs + [Field(id, area, notes.GetOr(""), [])])
  }

  /** /addtask (admin): appended to the first field with the id; names are not checked. */
  function AddTask(cs: seq<Field>, isAdmin: bool, id: int, name: string, reward: string): (r: Transition)
    ensures !isAdmin ==> r == Transition(NoPermission, cs)
    ensures !r.outcome.Writes() ==> r.contracts == cs
  {
    if !isAdmin then Transition(NoPermission, cs)
    else
      match FieldIndex(cs, id)
      case None => Transition(FieldNotFound, cs)
      case Some(c) => Transition(TaskAdded(c), WithTasks(cs, c, cs[c].tasks + [NewTask(name, reward)]))
  }

  /** /deletefield (admin): the first field with the id is removed with its tasks. */
  function DeleteField(cs: seq<Field>, isAdmin: bool, id: int): (r: Transition)
    ensures !isAdmin ==> r == Transition(NoPermission, cs)
    ensures !r.outcome.Writes() ==> r.contracts == cs
  {
    if !isAdmin then Transition(NoPermission, cs)
    else
      match FieldIndex(cs, id)
      case None => Transition(FieldNotFound, cs)
      case Some(c) => Transition(FieldDeleted(c), RemoveAt(cs, c))
  }

  /** /deletetask (admin): the first task with the name, whatever its status, is removed. */
  function DeleteTask(cs: seq<Field>, isAdmin: bool, id: int, name: string): (r: Transition)
    ensures !isAdmin ==> r == Transition(NoPermission, cs)
    ensures !r.outcome.Writes() ==> r.contracts == cs
  {
    if !isAdmin then Transition(NoPermission, cs)
    else
      match FieldIndex(cs, id)
      case None => Transition(FieldNotFound, cs)
      case Some(c) =>
        match FirstIndex(cs[c].tasks, Named(name))
        case None => Transition(TaskNotFound, cs)
        case Some(t) => Transition(TaskDeleted(c, t), WithTasks(cs, c, RemoveAt(cs[c].tasks, t)))
  }

  // ---------------------------------------------------------------------------------------
  // Dispatch

  /** A handler invocation with its typed arguments (the acting user and whether they have
      ManageGuild are passed beside it). */
  datatype Request =
    | Claiming(id: int, name: string)
    | Completing
    | Cancelling
    | PressingComplete(c: Option<int>, t: Option<int>)
    | Reopening(id: int, name: string)
    | AddingField(id: int, area: string, notes: Option<string>)
    | AddingTask(id: int, name: string, reward: string)
    | DeletingField(id: int)
    | DeletingTask(id: int, name: string)

  /** The handler modules (handlers/commandHandlers.js, handlers/buttonHandlers.js). */
  function Apply(cs: seq<Field>, req: Request, user: User, isAdmin: bool): (r: Transition)
    ensures !r.outcome.Writes() ==> r.contracts == cs
  {
    match req
    case Claiming(id, name) => Claim(cs, id, name, user)
    case Completing => Complete(cs, user)
    case Cancelling => Cancel(cs, user)
    case PressingComplete(c, t) => CompleteAt(cs, c, t, user)
    case Reopening(id, name) => Reopen(cs, isAdmin, id, name)
    case AddingField(id, area, notes) => AddField(cs, isAdmin, id, area, notes)
    case AddingTask(id, name, reward) => AddTask(cs, isAdmin, id, name, reward)
    case DeletingField(id) => DeleteField(cs, isAdmin, id)
    case DeletingTask(id, name) => DeleteTask(cs, isAdmin, id, name)
  }

  /** The older inline handler (index.js): three transitions differ, the rest are shared. */
  function LegacyApply(cs: seq<Field>, req: Request, user: User, isAdmin: bool): (r: Transition)
    ensures !r.outcome.Writes() ==> r.contracts == cs
    ensures !req.Completing? && !req.PressingComplete? && !req.Reopening? ==> r == Apply(cs, req, user, isAdmin)
  {
    match req
    case Completing => LegacyComplete(cs, user)
    case PressingComplete(c, t) => LegacyCompleteAt(cs, c, t, user)
    case Reopening(id, name) => LegacyReopen(cs, isAdmin, id, name)
    case _ => Apply(cs, req, user, isAdmin)
  }
}
