/** The private Complete button (handlers/buttonHandlers.js): the custom id carries the field
    and task positions at claim time; the press completes the task there if the presser holds
    its claim. */
module ButtonHandlers {
  import opened Optional
  import opened JsText
  import opened Contracts
  import opened StateMachine
  import opened Board
  import Properties

  /** `const [, , cIdx, tIdx] = customId.split('_')`, each then read with `parseInt`; a
      missing part reads as NaN, which addresses nothing. */
  function ButtonIndices(customId: string): (Option<int>, Option<int>) {
    var parts := Split(customId, '_');
    (if |parts| > 2 then ParseInt(parts[2]) else None,
     if |parts| > 3 then ParseInt(parts[3]) else None)
  }

  /** An id with too few `_`-separated parts gives no field index (fewer than three parts)
      or no task index (fewer than four), so the press answers "contract not found" or "not
      your claim". */
  lemma ButtonIndicesMissingParts(customId: string)
    ensures |Split(customId, '_')| <= 2 ==> ButtonIndices(customId).0.None?
    ensures |Split(customId, '_')| <= 3 ==> ButtonIndices(customId).1.None?
  {
  }

  /** The positions a button was made with are the positions its press reads back. */
  lemma ButtonIdRoundTrip(c: nat, t: nat)
    ensures ButtonIndices(CompleteButtonId(c, t)) == (Some(c), Some(t))
  {
    var ct, tt := NatText(c), NatText(t);
    assert '_' !in ct && '_' !in tt by {
      forall i | 0 <= i < |ct| ensures ct[i] != '_' { assert IsDecimalDigit(ct[i]); }
      forall i | 0 <= i < |tt| ensures tt[i] != '_' { assert IsDecimalDigit(tt[i]); }
    }
    assert CompleteButtonId(c, t) == "complete" + ['_'] + ("private" + ['_'] + (ct + ['_'] + tt));
    SplitAtFirst("complete", '_', "private" + ['_'] + (ct + ['_'] + tt));
    SplitAtFirst("private", '_', ct + ['_'] + tt);
    SplitAtFirst(ct, '_', tt);
    SplitWithoutSep(tt, '_');
    assert Split(CompleteButtonId(c, t), '_') == ["complete", "private", ct, tt];
    ParseIntNatText(c);
    ParseIntNatText(t);
  }

  /** Pressing the button handed out by a successful claim completes that claimed task, exactly
      as /complete would. */
  lemma ClaimButtonCompletesClaim(cs: seq<Field>, id: int, name: string, user: User)
    ensures var a := Claim(cs, id, name, user);
      a.outcome.TaskClaimed? ==>
        var ix := ButtonIndices(CompleteButtonId(a.outcome.c, a.outcome.t));
        && CompleteAt(a.contracts, ix.0, ix.1, user).outcome == TaskCompleted(a.outcome.c, a.outcome.t)
        && CompleteAt(a.contracts, ix.0, ix.1, user) == Complete(a.contracts, user)
  {
    var a := Claim(cs, id, name, user);
    if a.outcome.TaskClaimed? {
      ButtonIdRoundTrip(a.outcome.c, a.outcome.t);
      Properties.ClaimGivesSoleClaim(cs, id, name, user);
    }
  }

  /** `handleCompleteButton`. */
  method HandleCompleteButton(store: ContractStore, customId: string, user: User) returns (o: Outcome)
    modifies store
    ensures Transition(o, store.contracts) ==
      CompleteAt(old(store.contracts), ButtonIndices(customId).0, ButtonIndices(customId).1, user)
  {
    var (c, t) := ButtonIndices(customId);
    var cs := store.Read();
    if c.None? || !(0 <= c.value < |cs|) {
      return ContractNotFound;
    }
    var tasks := cs[c.value].tasks;
    if t.None? || !(0 <= t.value < |tasks|) || tasks[t.value].status != Claimed || tasks[t.value].claimedBy != Some(user) {
      return NotYourClaim;
    }
    store.Write(SetTask(cs, c.value, t.value, CompleteTask(tasks[t.value], user)));
    o := TaskCompleted(c.value, t.value);
  }
}
