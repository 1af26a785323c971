/** The contract store: fields ("contracts") holding ordered tasks, the lookups the handlers
    use on them, and the consistency rules the task state machine is meant to keep. */
module Contracts {
  import opened Optional

  /** A chat-platform user id. */
  type User = string

  datatype Status = Available | Claimed | Completed

  /** One paid task. `reward` is kept as the text the board shows for it. */
  datatype Task = Task(
    name: string,
    reward: string,
    status: Status,
    claimedBy: Option<User>,
    completedBy: Option<User>)

  /** One numbered field with its tasks in insertion order. `area` is kept as the text the
      board shows for it. */
  datatype Field = Field(field: int, area: string, notes: string, tasks: seq<Task>)

  // ---------------------------------------------------------------------------------------
  // Searching (`Array.prototype.findIndex` / `find`)

  /** Index of the first element satisfying `p`, as `findIndex` returns it. */
  function FirstIndex<T>(s: seq<T>, p: T -> bool): (r: Option<nat>)
    ensures r.Some? ==> r.value < |s| && p(s[r.value])
    ensures r.Some? ==> forall j :: 0 <= j < r.value ==> !p(s[j])
    ensures r.None? ==> forall j :: 0 <= j < |s| ==> !p(s[j])
    decreases |s|
  {
    if |s| == 0 then None
    else if p(s[0]) then Some(0)
    else
      match FirstIndex(s[1..], p)
      case None => None
      case Some(k) => Some(k + 1)
  }

  function HasId(id: int): Field -> bool {
    (f: Field) => f.field == id
  }

  function Named(name: string): Task -> bool {
    (t: Task) => t.name == name
  }

  function NamedWith(name: string, status: Status): Task -> bool {
    (t: Task) => t.name == name && t.status == status
  }

  function ClaimedBy(user: User): Task -> bool {
    (t: Task) => t.status == Claimed && t.claimedBy == Some(user)
  }

  /** `contracts.findIndex(c => c.field === id)`. */
  function FieldIndex(cs: seq<Field>, id: int): (r: Option<nat>)
    ensures r.Some? ==> r.value < |cs| && cs[r.value].field == id
    ensures r.Some? ==> forall j :: 0 <= j < r.value ==> cs[j].field != id
    ensures r.None? ==> forall j :: 0 <= j < |cs| ==> cs[j].field != id
  {
    FirstIndex(cs, HasId(id))
  }

  // ---------------------------------------------------------------------------------------
  // Claims held by a user

  predicate IsClaimBy(cs: seq<Field>, c: int, t: int, user: User) {
    && 0 <= c < |cs|
    && 0 <= t < |cs[c].tasks|
    && cs[c].tasks[t].status == Claimed
    && cs[c].tasks[t].claimedBy == Some(user)
  }

  /** `contracts.some(c => c.tasks.some(t => t.claimedBy === user && t.status === 'claimed'))` */
  predicate HoldsClaim(cs: seq<Field>, user: User)
    ensures HoldsClaim(cs, user) <==> FirstIndex(cs, FieldWithClaim(user)).Some?
  {
    var p := FirstIndex(cs, FieldWithClaim(user));
    assert p.Some? ==> IsClaimBy(cs, p.value, FirstIndex(cs[p.value].tasks, ClaimedBy(user)).value, user);
    assert forall c, t :: IsClaimBy(cs, c, t, user) ==> FieldWithClaim(user)(cs[c]) by {
      forall c, t | IsClaimBy(cs, c, t, user) ensures FieldWithClaim(user)(cs[c]) {
        assert ClaimedBy(user)(cs[c].tasks[t]);
      }
    }
    exists c, t :: 0 <= c < |cs| && 0 <= t < |cs[c].tasks| && IsClaimBy(cs, c, t, user)
  }

  /** No claim of `user` comes before position (c, t) in field order, then task order. */
  ghost predicate NoClaimBefore(cs: seq<Field>, user: User, c: int, t: int) {
    forall c', t' :: IsClaimBy(cs, c', t', user) ==> c < c' || (c == c' && t <= t')
  }

  function FieldWithClaim(user: User): Field -> bool {
    (f: Field) => FirstIndex(f.tasks, ClaimedBy(user)).Some?
  }

  /** The position the nested `for ... of` scans of /complete and /cancel stop at: the
      first task claimed by `user`, fields in order, then tasks in order. */
  function FirstClaimOf(cs: seq<Field>, user: User): (r: Option<(nat, nat)>)
    ensures r.Some? ==> IsClaimBy(cs, r.value.0, r.value.1, user)
    ensures r.Some? ==> NoClaimBefore(cs, user, r.value.0, r.value.1)
    ensures r.None? <==> !HoldsClaim(cs, user)
  {
    match FirstIndex(cs, FieldWithClaim(user))
    case None =>
      assert forall c, t :: IsClaimBy(cs, c, t, user) ==> ClaimedBy(user)(cs[c].tasks[t]);
      None
    case Some(c) =>
      var t := FirstIndex(cs[c].tasks, ClaimedBy(user)).value;
      assert IsClaimBy(cs, c, t, user);
      Some((c, t))
  }

  // ---------------------------------------------------------------------------------------
  // In-place edits, as values

  /** The store with field `c`'s task list replaced. */
  function WithTasks(cs: seq<Field>, c: nat, ts: seq<Task>): (r: seq<Field>)
    requires c < |cs|
    ensures |r| == |cs|
    ensures forall i :: 0 <= i < |cs| && i != c ==> r[i] == cs[i]
    ensures r[c] == cs[c].(tasks := ts)
  {
    cs[c := cs[c].(tasks := ts)]
  }

  /** The store after overwriting task `t` of field `c` (`task.status = ...` and so on). */
  function SetTask(cs: seq<Field>, c: nat, t: nat, task: Task): (r: seq<Field>)
    requires c < |cs| && t < |cs[c].tasks|
    ensures |r| == |cs|
    ensures forall i :: 0 <= i < |cs| && i != c ==> r[i] == cs[i]
    ensures r[c].field == cs[c].field && r[c].area == cs[c].area && r[c].notes == cs[c].notes
    ensures |r[c].tasks| == |cs[c].tasks| && r[c].tasks[t] == task
    ensures forall j :: 0 <= j < |cs[c].tasks| && j != t ==> r[c].tasks[j] == cs[c].tasks[j]
  {
    WithTasks(cs, c, cs[c].tasks[t := task])
  }

  /** `s.splice(i, 1)`: everything before `i` stays, everything after moves down by one. */
  function RemoveAt<T>(s: seq<T>, i: nat): (r: seq<T>)
    requires i < |s|
    ensures |r| == |s| - 1
    ensures forall j :: 0 <= j < i ==> r[j] == s[j]
    ensures forall j :: i <= j < |r| ==> r[j] == s[j + 1]
  {
    s[..i] + s[i + 1..]
  }

  // ---------------------------------------------------------------------------------------
  // Consistency rules

  /** `claimedBy` is set exactly when the task is claimed. */
  predicate ClaimTracked(t: Task) {
    t.claimedBy.Some? <==> t.status == Claimed
  }

  /** `completedBy` is set exactly when the task is completed. */
  predicate CompletionTracked(t: Task) {
    t.completedBy.Some? <==> t.status == Completed
  }

  ghost predicate ClaimsTracked(cs: seq<Field>) {
    forall c, t :: 0 <= c < |cs| && 0 <= t < |cs[c].tasks| ==> ClaimTracked(cs[c].tasks[t])
  }

  ghost predicate CompletionsTracked(cs: seq<Field>) {
    forall c, t :: 0 <= c < |cs| && 0 <= t < |cs[c].tasks| ==> CompletionTracked(cs[c].tasks[t])
  }

  /** Every user holds at most one claimed task in the whole store. */
  ghost predicate SingleClaim(cs: seq<Field>) {
    forall user, c1, t1, c2, t2 ::
      IsClaimBy(cs, c1, t1, user) && IsClaimBy(cs, c2, t2, user) ==> c1 == c2 && t1 == t2
  }

  /** Field ids are unique. */
  ghost predicate UniqueIds(cs: seq<Field>) {
    forall i, j :: 0 <= i < j < |cs| ==> cs[i].field != cs[j].field
  }

  /** The rules the modular handlers keep. */
  ghost predicate Valid(cs: seq<Field>) {
    ClaimsTracked(cs) && CompletionsTracked(cs) && SingleClaim(cs) && UniqueIds(cs)
  }

  /** The rules the older inline handlers keep (they do not track `completedBy`). */
  ghost predicate LegacyValid(cs: seq<Field>) {
    ClaimsTracked(cs) && SingleClaim(cs) && UniqueIds(cs)
  }

  // ---------------------------------------------------------------------------------------
  // The JSON file

  /** The persisted store (`contracts.json`); a missing file reads as no fields. Every handler
      reads a fresh snapshot, changes it, and writes the whole snapshot back. */
  class ContractStore {
    var contracts: seq<Field>

    constructor (initial: seq<Field>)
      ensures contracts == initial
    {
      contracts := initial;
    }

    /** `readContracts()` */
    method Read() returns (cs: seq<Field>)
      ensures cs == contracts
    {
      cs := contracts;
    }

    /** `writeContracts(cs)`: replaces the whole persisted content. */
    method Write(cs: seq<Field>)
      modifies this
      ensures contracts == cs
    {
      contracts := cs;
    }
  }
}
