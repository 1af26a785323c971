/** Option suggestions while a slash command is typed (handlers/autocompleteHandlers.js; the
    inline copy in index.js behaves the same). A suggestion list is cut to Discord's 25. */
module Autocomplete {
  import opened Optional
  import opened JsText
  import opened Contracts
  import opened StateMachine

  datatype ChoiceValue = FieldValue(id: int) | NameValue(name: string)
  datatype Choice = Choice(name: string, value: ChoiceValue)

  const MaxChoices: nat := 25

  /** `.slice(0, 25)` */
  function Cap<T>(s: seq<T>): (r: seq<T>)
    ensures |r| == if |s| <= MaxChoices then |s| else MaxChoices
    ensures r == s[..|r|]
  {
    if |s| <= MaxChoices then s else s[..MaxChoices]
  }

  /** `c.tasks.some(t => t.status === status)` */
  predicate HasTaskWith(f: Field, status: Status) {
    exists t | t in f.tasks :: t.status == status
  }

  /** `contracts.filter(c => c.tasks.some(t => t.status === status))` */
  function FieldsWith(cs: seq<Field>, status: Status): (r: seq<Field>)
    ensures |r| <= |cs|
    ensures forall f :: f in r <==> f in cs && HasTaskWith(f, status)
  {
    if |cs| == 0 then []
    else (if HasTaskWith(cs[0], status) then [cs[0]] else []) + FieldsWith(cs[1..], status)
  }

  /** The filter keeps store order: filtering a concatenation concatenates the filtered parts. */
  lemma {:induction false} FieldsWithAppend(a: seq<Field>, b: seq<Field>, status: Status)
    ensures FieldsWith(a + b, status) == FieldsWith(a, status) + FieldsWith(b, status)
  {
    if |a| > 0 {
      assert (a + b)[1..] == a[1..] + b;
      FieldsWithAppend(a[1..], b, status);
    } else {
      assert a + b == b;
    }
  }

  /** `tasks.map(t => t.status === status ? t.name : null).filter(Boolean)`: names of tasks in
      that status, in task order, without empty names. */
  function NamesWith(ts: seq<Task>, status: Status): (r: seq<string>)
    ensures |r| <= |ts|
    ensures forall n :: n in r <==> n != "" && exists t :: t in ts && t.status == status && t.name == n
  {
    if |ts| == 0 then []
    else
      (if ts[0].status == status && ts[0].name != "" then [ts[0].name] else [])
      + NamesWith(ts[1..], status)
  }

  /** `{ name: `Field ${c.field}`, value: c.field }` */
  function FieldChoice(f: Field): (r: Choice)
    ensures r.value == FieldValue(f.field)
  {
    Choice("Field " + IntText(f.field), FieldValue(f.field))
  }

  function FieldChoices(fs: seq<Field>): (r: seq<Choice>)
    ensures |r| == |fs|
    ensures forall i :: 0 <= i < |fs| ==> r[i] == FieldChoice(fs[i])
  {
    seq(|fs|, i requires 0 <= i < |fs| => FieldChoice(fs[i]))
  }

  /** `{ name, value: name }` for each name. */
  function NameChoices(ns: seq<string>): (r: seq<Choice>)
    ensures |r| == |ns|
    ensures forall i :: 0 <= i < |ns| ==> r[i] == Choice(ns[i], NameValue(ns[i]))
  {
    seq(|ns|, i requires 0 <= i < |ns| => Choice(ns[i], NameValue(ns[i])))
  }

  /** The task suggestions of /claim and /reopen: the named tasks in `status` of the first
      field whose id is the already-entered `field` option; an absent option or unknown id
      gives the empty list. */
  function TaskNameChoices(cs: seq<Field>, fieldOption: Option<int>, status: Status): (r: seq<Choice>)
    ensures |r| <= MaxChoices
  {
    if fieldOption.None? then []
    else
      match FieldIndex(cs, fieldOption.value)
      case None => []
      case Some(c) => Cap(NameChoices(NamesWith(cs[c].tasks, status)))
  }

  /** `handleAutocomplete`: the choices it responds with, or `None` when it does not respond. */
  function Suggest(commandName: string, focused: string, fieldOption: Option<int>, cs: seq<Field>): (r: Option<seq<Choice>>)
    ensures r.Some? ==> |r.value| <= MaxChoices
    ensures r.Some? <==>
      || (commandName in {"claim", "reopen"} && focused in {"field", "task"})
      || (commandName in {"addtask", "deletefield", "deletetask"} && focused == "field")
      || (commandName == "deletetask" && focused == "name")
  {
    if commandName == "claim" then
      if focused == "field" then Some(Cap(FieldChoices(FieldsWith(cs, Available))))
      else if focused == "task" then Some(TaskNameChoices(cs, fieldOption, Available))
      else None
    else if commandName == "reopen" then
      if focused == "field" then Some(Cap(FieldChoices(FieldsWith(cs, Completed))))
      else if focused == "task" then Some(TaskNameChoices(cs, fieldOption, Completed))
      else None
    else if commandName in {"addtask", "deletefield", "deletetask"} && focused == "field" then
      Some(Cap(FieldChoices(cs)))
    else if commandName == "deletetask" && focused == "name" then
      if fieldOption.None? then Some([])
      else
        match FieldIndex(cs, fieldOption.value)
        case None => Some([])
        case Some(c) => Some(Cap(seq(|cs[c].tasks|, i requires 0 <= i < |cs[c].tasks| =>
                                   Choice(cs[c].tasks[i].name, NameValue(cs[c].tasks[i].name)))))
    else None
  }

  /** The status whose fields and tasks /claim and /reopen suggest. */
  function SuggestedStatus(commandName: string): Status {
    if commandName == "claim" then Available else Completed
  }

  /** The field suggestions of /claim (/reopen) are the fields with an available (completed)
      task: every suggestion is one, and when there are at most 25 of them every one is
      suggested. */
  lemma FieldSuggestionsMatchStatus(cs: seq<Field>, commandName: string, fieldOption: Option<int>)
    requires commandName in {"claim", "reopen"}
    ensures var status := SuggestedStatus(commandName);
      var r := Suggest(commandName, "field", fieldOption, cs).value;
      && (forall ch :: ch in r ==> exists f :: f in cs && HasTaskWith(f, status) && ch == FieldChoice(f))
      && (|FieldsWith(cs, status)| <= MaxChoices ==>
            forall f :: f in cs && HasTaskWith(f, status) ==> FieldChoice(f) in r)
  {
    var status := SuggestedStatus(commandName);
    var fs := FieldsWith(cs, status);
    var r := Suggest(commandName, "field", fieldOption, cs).value;
    assert r == Cap(FieldChoices(fs));
    forall ch | ch in r ensures exists f :: f in cs && HasTaskWith(f, status) && ch == FieldChoice(f) {
      var i :| 0 <= i < |r| && r[i] == ch;
      assert fs[i] in fs;
    }
    if |fs| <= MaxChoices {
      forall f | f in cs && HasTaskWith(f, status) ensures FieldChoice(f) in r {
        var i :| 0 <= i < |fs| && fs[i] == f;
        assert r[i] == FieldChoice(f);
      }
    }
  }

  /** The name filter keeps task order. */
  lemma {:induction false} NamesWithAppend(a: seq<Task>, b: seq<Task>, status: Status)
    ensures NamesWith(a + b, status) == NamesWith(a, status) + NamesWith(b, status)
  {
    if |a| > 0 {
      assert (a + b)[1..] == a[1..] + b;
      NamesWithAppend(a[1..], b, status);
    } else {
      assert a + b == b;
    }
  }

  /** The task suggestions of /claim (/reopen) for a known field are its named tasks in the
      available (completed) status, in task order, cut to the first 25; when there are at most
      25 of them every such task is suggested. */
  lemma TaskSuggestionsMatchStatus(cs: seq<Field>, commandName: string, id: int)
    requires commandName in {"claim", "reopen"}
    requires FieldIndex(cs, id).Some?
    ensures var status, ts := SuggestedStatus(commandName), cs[FieldIndex(cs, id).value].tasks;
      var ns, r := NamesWith(ts, status), Suggest(commandName, "task", Some(id), cs).value;
      && r == NameChoices(ns)[..|r|]
      && (|ns| <= MaxChoices ==> r == NameChoices(ns))
      && (|ns| <= MaxChoices ==>
            forall t :: t in ts && t.status == status && t.name != "" ==> Choice(t.name, NameValue(t.name)) in r)
  {
    var status, ts := SuggestedStatus(commandName), cs[FieldIndex(cs, id).value].tasks;
    var ns, r := NamesWith(ts, status), Suggest(commandName, "task", Some(id), cs).value;
    assert r == Cap(NameChoices(ns));
    if |ns| <= MaxChoices {
      forall t | t in ts && t.status == status && t.name != "" ensures Choice(t.name, NameValue(t.name)) in r {
        assert t.name in ns;
        var i :| 0 <= i < |ns| && ns[i] == t.name;
        assert r[i] == Choice(t.name, NameValue(t.name));
      }
    }
  }

  /** For addtask, deletefield and deletetask the field option lists every field, in store
      order, up to 25. */
  lemma AllFieldsSuggested(cs: seq<Field>, commandName: string, fieldOption: Option<int>)
    requires commandName in {"addtask", "deletefield", "deletetask"}
    ensures var r := Suggest(commandName, "field", fieldOption, cs).value;
      && |r| == (if |cs| <= MaxChoices then |cs| else MaxChoices)
      && forall i :: 0 <= i < |r| ==> r[i] == FieldChoice(cs[i])
  {
  }

  /** Deletetask's name option lists every task of the first field with the id, whatever its
      status and even when its name is empty, in task order, up to 25. */
  lemma AllTaskNamesSuggested(cs: seq<Field>, id: int)
    requires FieldIndex(cs, id).Some?
    ensures var ts := cs[FieldIndex(cs, id).value].tasks;
      var r := Suggest("deletetask", "name", Some(id), cs).value;
      && |r| == (if |ts| <= MaxChoices then |ts| else MaxChoices)
      && forall i :: 0 <= i < |r| ==> r[i] == Choice(ts[i].name, NameValue(ts[i].name))
  {
  }

  /** A suggested name is the name of a task in `status` in the first field with the id. */
  lemma TaskSuggestionFound(cs: seq<Field>, id: int, name: string, status: Status)
    requires Choice(name, NameValue(name)) in TaskNameChoices(cs, Some(id), status)
    ensures FieldIndex(cs, id).Some?
    ensures FirstIndex(cs[FieldIndex(cs, id).value].tasks, NamedWith(name, status)).Some?
  {
    var r := TaskNameChoices(cs, Some(id), status);
    var c := FieldIndex(cs, id).value;
    var ns := NamesWith(cs[c].tasks, status);
    var i :| 0 <= i < |r| && r[i] == Choice(name, NameValue(name));
    assert ns[i] == name && name in ns;
    var task :| task in cs[c].tasks && task.status == status && task.name == name;
    var t :| 0 <= t < |cs[c].tasks| && cs[c].tasks[t] == task;
    assert NamedWith(name, status)(cs[c].tasks[t]);
  }

  /** Every task /claim suggests, once its field is entered, passes /claim's field and task
      checks: claiming it either succeeds or is refused only for a claim already held. */
  lemma ClaimSuggestionsClaimable(cs: seq<Field>, id: int, name: string, user: User)
    requires Choice(name, NameValue(name)) in Suggest("claim", "task", Some(id), cs).value
    ensures Claim(cs, id, name, user).outcome.TaskClaimed? || Claim(cs, id, name, user).outcome == AlreadyClaiming
  {
    TaskSuggestionFound(cs, id, name, Available);
  }

  /** Every task /reopen suggests can be reopened by an administrator. */
  lemma ReopenSuggestionsReopenable(cs: seq<Field>, id: int, name: string)
    requires Choice(name, NameValue(name)) in Suggest("reopen", "task", Some(id), cs).value
    ensures Reopen(cs, true, id, name).outcome.TaskReopened?
  {
    TaskSuggestionFound(cs, id, name, Completed);
  }

  /** A task suggestion for an unknown field, or before the field is entered, is empty. */
  lemma UnknownFieldSuggestsNothing(cs: seq<Field>, commandName: string, fieldOption: Option<int>)
    requires commandName in {"claim", "reopen", "deletetask"}
    requires fieldOption.Some? ==> forall i :: 0 <= i < |cs| ==> cs[i].field != fieldOption.value
    ensures Suggest(commandName, if commandName == "deletetask" then "name" else "task", fieldOption, cs) == Some([])
  {
    if fieldOption.Some? {
      assert FieldIndex(cs, fieldOption.value).None?;
    }
  }
}
