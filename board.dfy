/** The public contract board (utils/embedHelpers.js): one embed field per contract field, one
    line per task with a blank line between tasks, and the private Complete button handed out
    on a successful claim. */
module Board {
  import opened Optional
  import opened JsText
  import opened Contracts

  datatype EmbedField = EmbedField(name: string, value: string)

  /** The embed as posted; its timestamp is the posting time and is not modelled. */
  datatype Embed = Embed(title: string, description: string, color: int, fields: seq<EmbedField>)

  /** A Success-style button of an action row. */
  datatype Button = Button(customId: string, text: string)

  // ---------------------------------------------------------------------------------------
  // Task lines

  /** 🟢 available, 🟡 claimed, ✅ completed (anything else would also show ✅). */
  function StatusIcon(s: Status): (r: char)
    ensures r == '\U{1F7E2}' <==> s == Available
    ensures r == '\U{1F7E1}' <==> s == Claimed
    ensures r == '\U{2705}' <==> s == Completed
  {
    match s
    case Available => '\U{1F7E2}'
    case Claimed => '\U{1F7E1}'
    case Completed => '\U{2705}'
  }

  /** Reading a status back off the board. */
  function IconStatus(c: char): (r: Option<Status>)
    ensures r.Some? ==> StatusIcon(r.value) == c
  {
    if c == '\U{1F7E2}' then Some(Available)
    else if c == '\U{1F7E1}' then Some(Claimed)
    else if c == '\U{2705}' then Some(Completed)
    else None
  }

  /** JavaScript truthiness of an optional user id: absent, null and '' are falsy. */
  predicate Truthy(u: Option<User>) {
    u.Some? && u.value != ""
  }

  function Mention(u: User): string {
    "<@" + u + ">"
  }

  /** The note after the reward: who holds the claim, or who completed the task. */
  function Suffix(t: Task): (r: string)
    ensures r != "" <==> (t.status == Claimed && Truthy(t.claimedBy)) || (t.status == Completed && Truthy(t.completedBy))
    ensures t.status == Claimed && Truthy(t.claimedBy) ==> r == " (claimed by " + Mention(t.claimedBy.value) + ")"
    ensures t.status == Completed && Truthy(t.completedBy) ==> r == " (completed by " + Mention(t.completedBy.value) + ")"
  {
    if t.status == Claimed && Truthy(t.claimedBy) then " (claimed by " + Mention(t.claimedBy.value) + ")"
    else if t.status == Completed && Truthy(t.completedBy) then " (completed by " + Mention(t.completedBy.value) + ")"
    else ""
  }

  /** `${status} **${name}** — **${reward} €**${extra}`; `reward` is the already formatted
      amount. */
  function TaskLine(t: Task): (r: string)
    ensures |r| > |Suffix(t)| && r[0] == StatusIcon(t.status)
    ensures r[|r| - |Suffix(t)|..] == Suffix(t)
  {
    LineHead(t) + t.name + LineTail(t) + Suffix(t)
  }

  /** The status icon and the opening of the bold name. */
  function LineHead(t: Task): (r: string)
    ensures |r| == 4 && r[0] == StatusIcon(t.status)
  {
    [StatusIcon(t.status)] + " **"
  }

  /** From the end of the bold name to the end of the bold reward. */
  function LineTail(t: Task): (r: string)
    ensures |r| >= 2 && r[..2] == "**"
  {
    "** \U{2014} **" + t.reward + " €**"
  }

  /** The note of the older inline board (index.js): only claims get one. */
  function LegacySuffix(t: Task): (r: string)
    ensures r != "" <==> t.status == Claimed && Truthy(t.claimedBy)
  {
    if t.status == Claimed && Truthy(t.claimedBy) then " (claimed by " + Mention(t.claimedBy.value) + ")" else ""
  }

  /** The task line of the older inline board. */
  function LegacyTaskLine(t: Task): (r: string)
    ensures |r| > |LegacySuffix(t)| && r[0] == StatusIcon(t.status)
    ensures r[|r| - |LegacySuffix(t)|..] == LegacySuffix(t)
  {
    LineHead(t) + t.name + LineTail(t) + LegacySuffix(t)
  }

  /** A task line shows the task's status as its first character and its name in bold right
      after it. */
  lemma TaskLineShowsTask(t: Task)
    ensures IconStatus(TaskLine(t)[0]) == Some(t.status)
    ensures TaskLine(t)[4..4 + |t.name|] == t.name
    ensures TaskLine(t)[4 + |t.name|..6 + |t.name|] == "**"
  {
    var head, tail, suffix := LineHead(t), LineTail(t), Suffix(t);
    var line := head + t.name + tail + suffix;
    assert line[0] == head[0];
    assert line[4..4 + |t.name|] == t.name by {
      forall i | 0 <= i < |t.name| ensures line[4 + i] == t.name[i] {}
    }
    assert line[4 + |t.name|..6 + |t.name|] == tail[..2] by {
      forall i | 0 <= i < 2 ensures line[4 + |t.name| + i] == tail[i] {}
    }
  }

  /** The two boards draw the same line except for completed tasks, where the inline board
      leaves out the completer. */
  lemma LegacyTaskLineDrops(t: Task)
    ensures t.status != Completed ==> LegacyTaskLine(t) == TaskLine(t)
    ensures t.status == Completed ==> TaskLine(t) == LegacyTaskLine(t) + Suffix(t)
    ensures t.status == Completed && Truthy(t.completedBy) ==> LegacyTaskLine(t) != TaskLine(t)
  {
    var body := LineHead(t) + t.name + LineTail(t);
    if t.status == Completed {
      assert LegacySuffix(t) == "";
      assert body + "" == body;
      if Truthy(t.completedBy) {
        assert |TaskLine(t)| > |LegacyTaskLine(t)|;
      }
    }
  }

  // ---------------------------------------------------------------------------------------
  // Field values

  /** One line per task, in order. */
  function TaskLines(ts: seq<Task>): (r: seq<string>)
    ensures |r| == |ts|
    ensures forall j :: 0 <= j < |ts| ==> r[j] == TaskLine(ts[j])
  {
    seq(|ts|, j requires 0 <= j < |ts| => TaskLine(ts[j]))
  }

  /** Line `i` of the spaced lines: line `i / 2` on even positions, a blank separator on odd
      ones. */
  function SpacedAt(ls: seq<string>, i: nat): string
    requires i < 2 * |ls|
  {
    if i % 2 == 0 then ls[i / 2] else ""
  }

  /** The lines with a blank line between each two. */
  function Spaced(ls: seq<string>): seq<string> {
    if |ls| == 0 then [] else seq(2 * |ls| - 1, i requires 0 <= i < 2 * |ls| - 1 => SpacedAt(ls, i))
  }

  /** The lines of one field on the board. */
  function FieldLines(ts: seq<Task>): (r: seq<string>)
    ensures |r| == if |ts| == 0 then 0 else 2 * |ts| - 1
  {
    Spaced(TaskLines(ts))
  }

  lemma SpacedShape(ls: seq<string>)
    ensures |Spaced(ls)| == if |ls| == 0 then 0 else 2 * |ls| - 1
    ensures forall j :: 0 <= j < |ls| ==> Spaced(ls)[2 * j] == ls[j]
    ensures forall j :: 0 <= j < |ls| - 1 ==> Spaced(ls)[2 * j + 1] == ""
  {
    forall j | 0 <= j < |ls| ensures Spaced(ls)[2 * j] == ls[j] {
      assert (2 * j) % 2 == 0 && (2 * j) / 2 == j;
    }
    forall j | 0 <= j < |ls| - 1 ensures Spaced(ls)[2 * j + 1] == "" {
      assert (2 * j + 1) % 2 == 1;
    }
  }

  /** A field with n tasks shows 2n - 1 lines: the tasks in order on the even lines and blank
      separators on the odd ones. */
  lemma FieldLinesShape(ts: seq<Task>)
    ensures |FieldLines(ts)| == if |ts| == 0 then 0 else 2 * |ts| - 1
    ensures forall j :: 0 <= j < |ts| ==> FieldLines(ts)[2 * j] == TaskLine(ts[j])
    ensures forall j :: 0 <= j < |ts| - 1 ==> FieldLines(ts)[2 * j + 1] == ""
  {
    SpacedShape(TaskLines(ts));
  }

  /** Spacing one more line adds a blank separator and that line. */
  lemma SpacedAppend(ls: seq<string>, l: string)
    requires |ls| > 0
    ensures Spaced(ls + [l]) == Spaced(ls) + [""] + [l]
  {
    var n := |ls|;
    var a, b := Spaced(ls + [l]), Spaced(ls);
    forall i | 0 <= i < 2 * n - 1 ensures a[i] == b[i] {
      assert i / 2 < n && (ls + [l])[i / 2] == ls[i / 2];
    }
    assert a[2 * n - 1] == "" by {
      assert (2 * n - 1) % 2 == 1;
    }
    assert a[2 * n] == l by {
      assert (2 * n) % 2 == 0 && (2 * n) / 2 == n;
    }
  }

  /** Adding a task to a non-empty field adds a blank separator and the new task's line. */
  lemma FieldLinesAppend(ts: seq<Task>, t: Task)
    requires |ts| > 0
    ensures FieldLines(ts + [t]) == FieldLines(ts) + [""] + [TaskLine(t)]
  {
    assert TaskLines(ts + [t]) == TaskLines(ts) + [TaskLine(t)];
    SpacedAppend(TaskLines(ts), TaskLine(t));
  }

  /** `Field ${field} (${area}ha)` */
  function FieldName(f: Field): string {
    "Field " + IntText(f.field) + " (" + f.area + "ha)"
  }

  /** A field's name starts with `Field `, then shows the field id as the board prints it,
      and ends with the `ha)` of the area. */
  lemma FieldNameShowsId(f: Field)
    ensures var n, id := FieldName(f), IntText(f.field);
      && |n| > 9 + |id|
      && n[..6] == "Field " && n[6..6 + |id|] == id
      && n[|n| - 3..] == "ha)"
  {
  }

  /** The value of field `i`: its lines joined by newlines, then a zero-width spacer line
      unless it is the last field. */
  function FieldValue(cs: seq<Field>, i: nat): string
    requires i < |cs|
  {
    Join(FieldLines(cs[i].tasks), "\n") + (if i < |cs| - 1 then "\n\U{200B}" else "")
  }

  /** The last field's value is exactly its joined lines; every other value is its joined
      lines followed by a newline and the zero-width spacer. */
  lemma FieldValueSpacer(cs: seq<Field>, i: nat)
    requires i < |cs|
    ensures i == |cs| - 1 ==> FieldValue(cs, i) == Join(FieldLines(cs[i].tasks), "\n")
    ensures i < |cs| - 1 ==> |FieldValue(cs, i)| >= 2 && FieldValue(cs, i)[|FieldValue(cs, i)| - 2..] == "\n\U{200B}"
    ensures i < |cs| - 1 ==> FieldValue(cs, i)[..|FieldValue(cs, i)| - 2] == Join(FieldLines(cs[i].tasks), "\n")
  {
    var body := Join(FieldLines(cs[i].tasks), "\n");
    if i < |cs| - 1 {
      assert FieldValue(cs, i) == body + "\n\U{200B}";
    }
  }

  const Title: string := "Farming Simulator Contracts"
  const Color: int := 0x4caf50

  /** The legend uses the same icons as the task lines. */
  const Legend: string :=
    "**Legend:** " + [StatusIcon(Available)] + " Available | " + [StatusIcon(Claimed)] + " Claimed | "
    + [StatusIcon(Completed)] + " Completed\nOne contract task per farm at a time."

  /** The inner `forEach` of `buildContractEmbed`: the lines of one field. */
  method BuildFieldLines(ts: seq<Task>) returns (lines: seq<string>)
    ensures lines == FieldLines(ts)
  {
    ghost var ls := TaskLines(ts);
    lines := [];
    var k := 0;
    while k < |ts|
      invariant 0 <= k <= |ts|
      invariant k == 0 ==> lines == []
      invariant 0 < k < |ts| ==> lines == Spaced(ls[..k]) + [""]
      invariant k == |ts| ==> lines == Spaced(ls)
    {
      var line := TaskLine(ts[k]);
      assert ls[..k + 1] == ls[..k] + [line];
      if k == 0 {
        assert Spaced([line]) == [line] by {
          assert SpacedAt([line], 0) == line;
        }
      } else {
        SpacedAppend(ls[..k], line);
      }
      lines := lines + [line];
      if k < |ts| - 1 {
        lines := lines + [""];
      } else {
        assert ls[..k + 1] == ls;
      }
      k := k + 1;
    }
  }

  /** Entry `i` of the board: the field's name and value. */
  function Entry(cs: seq<Field>, i: nat): EmbedField
    requires i < |cs|
  {
    EmbedField(FieldName(cs[i]), FieldValue(cs, i))
  }

  /** The body of the outer `forEach` of `buildContractEmbed`: the entry of field `c`. */
  method BuildEntry(cs: seq<Field>, c: nat) returns (entry: EmbedField)
    requires c < |cs|
    ensures entry == Entry(cs, c)
  {
    var lines := BuildFieldLines(cs[c].tasks);
    var value := Join(lines, "\n");
    if c < |cs| - 1 {
      value := value + "\n\U{200B}";
    }
    entry := EmbedField(FieldName(cs[c]), value);
  }

  /** `buildContractEmbed(contracts)`: one embed field per contract field, in store order. */
  method BuildContractEmbed(cs: seq<Field>) returns (embed: Embed)
    ensures embed.title == Title && embed.description == Legend && embed.color == Color
    ensures |embed.fields| == |cs|
    ensures forall i :: 0 <= i < |cs| ==> embed.fields[i] == Entry(cs, i)
  {
    var fields: seq<EmbedField> := [];
    var c := 0;
    while c < |cs|
      invariant 0 <= c <= |cs|
      invariant |fields| == c
      invariant forall i :: 0 <= i < c ==> fields[i] == Entry(cs, i)
    {
      var entry := BuildEntry(cs, c);
      fields := fields + [entry];
      c := c + 1;
    }
    embed := Embed(Title, Legend, Color, fields);
  }

  /** `buildContractButtons`: the board carries no public buttons. */
  function ContractButtons(cs: seq<Field>): (r: seq<seq<Button>>)
    ensures |r| == 0
  {
    []
  }

  // ---------------------------------------------------------------------------------------
  // The private Complete button

  /** `complete_private_${cIdx}_${tIdx}` */
  function CompleteButtonId(c: nat, t: nat): (r: string)
    ensures |r| > 17 && r[..17] == "complete_private_"
  {
    "complete_private_" + NatText(c) + "_" + NatText(t)
  }

  /** `createCompleteButton(cIdx, tIdx, contract, task)` */
  function CompleteButton(c: nat, t: nat, f: Field, task: Task): (r: Button)
    ensures r.customId == CompleteButtonId(c, t)
    ensures r.text == "Complete: Field " + IntText(f.field) + " - " + task.name
  {
    Button(CompleteButtonId(c, t), "Complete: Field " + IntText(f.field) + " - " + task.name)
  }
}
