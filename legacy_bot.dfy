/** The older single-file bot (index.js): one interaction listener handling the private
    Complete button first, then the slash commands, then autocompletion. Its claim, cancel and
    admin branches behave as the handler modules do; /complete, the button and /reopen differ
    in what they record about the completer. */
module LegacyBot {
  import opened Optional
  import opened Contracts
  import opened StateMachine
  import opened Board
  import opened Autocomplete
  import CommandHandlers
  import ButtonHandlers

  /** What reaches the listener. A slash command arrives with its typed options; there is no
      slash command that presses a button, so `SlashCommand(PressingComplete(...))` gets no
      reply. */
  datatype Interaction =
    | ButtonPress(customId: string)
    | SlashCommand(command: Request)
    | AutocompleteQuery(commandName: string, focused: string, fieldOption: Option<int>)
    | OtherInteraction

  datatype Reply =
    | Replied(outcome: Outcome, button: Option<Button>)
    | Suggested(choices: seq<Choice>)
    | NoReply

  /** `s.startsWith(prefix)` */
  predicate StartsWith(s: string, prefix: string) {
    |prefix| <= |s| && s[..|prefix|] == prefix
  }

  /** The button ids the listener hands to its Complete branch include every id it gives out. */
  lemma ButtonIdsRecognised(c: nat, t: nat)
    ensures StartsWith(CompleteButtonId(c, t), "complete_private_")
  {
  }

  /** /complete: the same scan as the handler module, but `completedBy` is not written. */
  method HandleComplete(store: ContractStore, user: User) returns (o: Outcome)
    modifies store
    ensures Transition(o, store.contracts) == LegacyComplete(old(store.contracts), user)
  {
    var cs := store.Read();
    var p := CommandHandlers.FindClaim(cs, user);
    if p.None? {
      return NothingToComplete;
    }
    var (c, t) := p.value;
    store.Write(SetTask(cs, c, t, LegacyCompleteTask(cs[c].tasks[t])));
    o := TaskCompleted(c, t);
  }

  /** The private Complete button: `completedBy` is not written. */
  method HandleCompleteButton(store: ContractStore, customId: string, user: User) returns (o: Outcome)
    modifies store
    ensures Transition(o, store.contracts) ==
      LegacyCompleteAt(old(store.contracts), ButtonHandlers.ButtonIndices(customId).0, ButtonHandlers.ButtonIndices(customId).1, user)
  {
    var (c, t) := ButtonHandlers.ButtonIndices(customId);
    var cs := store.Read();
    if c.None? || !(0 <= c.value < |cs|) {
      return ContractNotFound;
    }
    var tasks := cs[c.value].tasks;
    if t.None? || !(0 <= t.value < |tasks|) || tasks[t.value].status != Claimed || tasks[t.value].claimedBy != Some(user) {
      return NotYourClaim;
    }
    store.Write(SetTask(cs, c.value, t.value, LegacyCompleteTask(tasks[t.value])));
    o := TaskCompleted(c.value, t.value);
  }

  /** /reopen (ManageGuild only): `completedBy` is left in place. */
  method HandleReopen(store: ContractStore, isAdmin: bool, id: int, name: string) returns (o: Outcome)
    modifies store
    ensures Transition(o, store.contracts) == LegacyReopen(old(store.contracts), isAdmin, id, name)
  {
    if !isAdmin {
      return NoPermission;
    }
    var cs := store.Read();
    var c := FieldIndex(cs, id);
    if c.None? {
      return FieldNotFound;
    }
    var t := FirstIndex(cs[c.value].tasks, NamedWith(name, Completed));
    if t.None? {
      return TaskNotCompleted;
    }
    store.Write(SetTask(cs, c.value, t.value, LegacyReopenTask(cs[c.value].tasks[t.value])));
    o := TaskReopened(c.value, t.value);
  }

  /** The `InteractionCreate` listener. */
  method HandleInteraction(store: ContractStore, ix: Interaction, user: User, isAdmin: bool) returns (reply: Reply)
    modifies store
    ensures ix.ButtonPress? && StartsWith(ix.customId, "complete_private_") ==>
      && reply.Replied? && reply.button.None?
      && Transition(reply.outcome, store.contracts) ==
         LegacyCompleteAt(old(store.contracts), ButtonHandlers.ButtonIndices(ix.customId).0,
                          ButtonHandlers.ButtonIndices(ix.customId).1, user)
    ensures ix.SlashCommand? && !ix.command.PressingComplete? ==>
      && reply.Replied?
      && Transition(reply.outcome, store.contracts) == LegacyApply(old(store.contracts), ix.command, user, isAdmin)
      && (reply.button.Some? <==> reply.outcome.TaskClaimed?)
    ensures ix.SlashCommand? && reply.Replied? && reply.outcome.TaskClaimed? ==>
      var c, t := reply.outcome.c, reply.outcome.t;
      && c < |old(store.contracts)| && t < |old(store.contracts)[c].tasks|
      && reply.button == Some(CompleteButton(c, t, old(store.contracts)[c], old(store.contracts)[c].tasks[t]))
    ensures ix.AutocompleteQuery? ==>
      && store.contracts == old(store.contracts)
      && var s := Suggest(ix.commandName, ix.focused, ix.fieldOption, old(store.contracts));
         reply == if s.Some? then Suggested(s.value) else NoReply
    ensures || ix.OtherInteraction?
            || (ix.ButtonPress? && !StartsWith(ix.customId, "complete_private_"))
            || (ix.SlashCommand? && ix.command.PressingComplete?) ==>
      reply == NoReply && store.contracts == old(store.contracts)
  {
    match ix
    case ButtonPress(customId) =>
      if StartsWith(customId, "complete_private_") {
        var o := HandleCompleteButton(store, customId, user);
        reply := Replied(o, None);
      } else {
        reply := NoReply;
      }
    case SlashCommand(command) =>
      match command {
      case Claiming(id, name) =>
        var o, button := CommandHandlers.HandleClaim(store, id, name, user);
        reply := Replied(o, button);
      case Completing =>
        var o := HandleComplete(store, user);
        reply := Replied(o, None);
      case Cancelling =>
        var o := CommandHandlers.HandleCancel(store, user);
        reply := Replied(o, None);
      case PressingComplete(_, _) =>
        reply := NoReply;
      case Reopening(id, name) =>
        var o := HandleReopen(store, isAdmin, id, name);
        reply := Replied(o, None);
      case AddingField(id, area, notes) =>
        var o := CommandHandlers.HandleAddField(store, isAdmin, id, area, notes);
        reply := Replied(o, None);
      case AddingTask(id, name, reward) =>
        var o := CommandHandlers.HandleAddTask(store, isAdmin, id, name, reward);
        reply := Replied(o, None);
      case DeletingField(id) =>
        var o := CommandHandlers.HandleDeleteField(store, isAdmin, id);
        reply := Replied(o, None);
      case DeletingTask(id, name) =>
        var o := CommandHandlers.HandleDeleteTask(store, isAdmin, id, name);
        reply := Replied(o, None);
      }
    case AutocompleteQuery(commandName, focused, fieldOption) =>
      var cs := store.Read();
      var s := Suggest(commandName, focused, fieldOption, cs);
      reply := if s.Some? then Suggested(s.value) else NoReply;
    case OtherInteraction =>
      reply := NoReply;
  }
}
