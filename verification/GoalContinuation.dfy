/** The automatic continuation loop: ask for a prompt, run a turn, ask again. */
module GoalContinuation {
  import opened Prelude
  import opened GoalStore
  import opened GoalRuntime
  import opened GoalAccounting

  /** One automatic turn: what happens between its start and its end, the tokens it spends
      itself, and how it ends. */
  datatype Script = Script(
    mids: seq<Event>, spent: nat, error: bool, cancelled: bool, stopFails: bool,
    startClock: real, clock: real, now: int)

  /** The loop's prompts, and whether it has stopped by itself. */
  datatype Tally = Tally(continues: nat, wraps: nat, done: bool)

  function AfterTurn(w: World, s: Script): World
  {
    var running := GoalAccounting.Run(Step(w, Start(false, s.startClock)), s.mids);
    FinishTurn(Step(running, Spend(s.spent)), s.error, s.cancelled, Faults(false, false, s.stopFails), s.clock, s.now)
  }

  /** The turn as the events of a run: its start, what happens during it, and its end with the
      three calls one after another. */
  lemma AfterTurnIsARun(w: World, s: Script)
    requires GoalAccounting.Run(Step(w, Start(false, s.startClock)), s.mids).ending.NotEnding?
    ensures var before := Step(GoalAccounting.Run(Step(w, Start(false, s.startClock)), s.mids), Spend(s.spent));
            AfterTurn(w, s) ==
              Step(Step(Step(before, Finish(false, s.clock)), Charge(false, s.now)),
                   StopTurn(s.error, s.cancelled, s.stopFails, s.now))
  {
    var before := Step(GoalAccounting.Run(Step(w, Start(false, s.startClock)), s.mids), Spend(s.spent));
    TurnEndIsThreeCalls(before, s.error, s.cancelled, Faults(false, false, s.stopFails), s.clock, s.now);
  }

  /** The scheduler's caps: how many turns it continues for, and after how many tokens beyond
      the start of the loop it stops; zero tokens stand for no such guard. */
  datatype Caps = Caps(continuations: nat, tokens: nat)

  const DEFAULT_CAPS := Caps(25, 400000)

  predicate Capped(w: World, caps: Caps, start: int)
  {
    caps.continuations == 0 || (caps.tokens > 0 && w.counter - start > caps.tokens)
  }

  function Loop(w: World, turns: seq<Script>, caps: Caps, start: int): Tally
    decreases turns
  {
    var prompt := NextPrompt(w.turn, w.row, false);
    if Capped(w, caps, start) || prompt.NoPrompt? then Tally(0, 0, true)
    else if turns == [] then Tally(0, 0, false)
    else
      var rest := Loop(AfterTurn(Step(w, Ask(false)), turns[0]), turns[1..],
                       caps.(continuations := caps.continuations - 1), start);
      if prompt.Continue? then rest.(continues := rest.continues + 1) else rest.(wraps := rest.wraps + 1)
  }

  /** During a turn: other callers and the updating tool may change the goal's status and
      objective or delete it, but neither its budget nor its identity. */
  predicate Mid(e: Event)
  {
    match e
    case Spend(_) => true
    case Outside(op) => Callable(op) && ((op.Update? && op.update.budget.Keep?) || op.Stop? || op.Delete?)
    case UpdateTool(op) => op.Update? && op.update.budget.Keep?
    case _ => false
  }

  predicate Mids(es: seq<Event>)
  {
    forall i :: 0 <= i < |es| ==> Mid(es[i])
  }

  function Clears(es: seq<Event>): nat
  {
    if es == [] then 0 else (if es[0].UpdateTool? then 1 else 0) + Clears(es[1..])
  }

  function AllClears(turns: seq<Script>): nat
  {
    if turns == [] then 0 else Clears(turns[0].mids) + AllClears(turns[1..])
  }

  predicate Scripts(turns: seq<Script>)
  {
    forall i :: 0 <= i < |turns| ==> Mids(turns[i].mids) && turns[i].spent >= 1
  }

  /** Still the goal g, if anything, with `used` tokens on it. */
  predicate StillOn(row: Option<Goal>, g: Goal, used: int)
  {
    row.Some? ==>
      row.value.goalId == g.goalId && row.value.budget == g.budget && row.value.tokensUsed == used && RowInv(row.value)
  }

  function Left(row: Option<Goal>): nat
  {
    if row.Some? && row.value.budget.Some? then Max(row.value.budget.value - row.value.tokensUsed, 0) else 0
  }

  function Unreported(w: World, g: Goal): nat
  {
    if w.turn.reported == Some(g.goalId) then 0 else 1
  }

  lemma {:induction false} MidsKeepTheTurn(w: World, es: seq<Event>, g: Goal, used: int)
    requires StillOn(w.row, g, used) && Mids(es)
    ensures var v := GoalAccounting.Run(w, es);
            && StillOn(v.row, g, used) && v.counter >= w.counter
            && v.turn == w.turn.(reported := v.turn.reported)
            && Unreported(v, g) <= Unreported(w, g) + Clears(es)
            && (w.row.None? ==> v.row.None?)
    decreases es
  {
    if es != [] {
      assert Mid(es[0]);
      MidsKeepTheTurn(Step(w, es[0]), es[1..], g, used);
    }
  }

  lemma TurnSpendsBudget(w: World, s: Script, g: Goal, used: int)
    requires StillOn(w.row, g, used) && Bindable(w.row) && Mids(s.mids) && s.spent >= 1
    ensures var v := AfterTurn(w, s);
            && StillOn(v.row, g, if v.row.Some? then v.row.value.tokensUsed else used)
            && (v.row.Some? ==> v.row.value.tokensUsed >= used + s.spent)
            && Unreported(v, g) <= Unreported(w, g) + Clears(s.mids)
  {
    var started := Step(w, Start(false, s.startClock));
    MidsKeepTheTurn(started, s.mids, g, used);
    var spent := Step(GoalAccounting.Run(started, s.mids), Spend(s.spent));
    var f := Faults(false, false, s.stopFails);
    EndTurnUsage(spent.turn, spent.row, spent.counter, s.error, s.cancelled, f, s.clock, s.now);
    EndTurnKeepsRow(spent.turn, spent.row, spent.counter, s.error, s.cancelled, f, s.clock, s.now);
  }

  lemma EndTurnKeepsRow(t: Turn, row: Option<Goal>, tokens: int, error: bool, cancelled: bool, f: Faults,
      clock: real, now: int)
    requires row.Some? ==> RowInv(row.value)
    ensures var r := EndTurn(t, row, tokens, error, cancelled, f, clock, now).row;
            r.Some? ==> row.Some? && RowInv(r.value) && r.value.budget == row.value.budget
  {
    if t.goalId.Some? && row.Some? {
      ModeAdmitsStatusRead(row.value.status);
    }
  }

  /** One round of the loop: what it counts and what it leaves for the others. */
  lemma LoopOnce(w: World, turns: seq<Script>, caps: Caps, start: int, g: Goal, used: int)
    returns (v: World, nowUsed: int)
    requires g.budget.Some? && StillOn(w.row, g, used) && Scripts(turns) && turns != []
    requires !Capped(w, caps, start) && !NextPrompt(w.turn, w.row, false).NoPrompt?
    ensures StillOn(v.row, g, nowUsed)
    ensures var rest := Loop(v, turns[1..], caps.(continuations := caps.continuations - 1), start);
            Loop(w, turns, caps, start) ==
              if w.row.value.status.Active? then rest.(continues := rest.continues + 1) else rest.(wraps := rest.wraps + 1)
    ensures w.row.value.status.Active? ==> Left(v.row) < Left(w.row) && Unreported(v, g) <= Unreported(w, g) + Clears(turns[0].mids)
    ensures !w.row.value.status.Active? ==>
      Left(v.row) <= Left(w.row) && Unreported(w, g) == 1 && Unreported(v, g) <= Clears(turns[0].mids)
  {
    var asked := Step(w, Ask(false));
    TurnSpendsBudget(asked, turns[0], g, used);
    v := AfterTurn(asked, turns[0]);
    nowUsed := if v.row.Some? then v.row.value.tokensUsed else used;
  }

  /** With a fixed budget and at least one token a turn the loop asks for at most as many
      continuations as there are tokens left, and for one wrap-up, plus one more for each
      time the updating tool clears the memory of it; whatever the caps, and never for more
      prompts than they allow. */
  lemma {:induction false} ContinuationIsBounded(w: World, turns: seq<Script>, caps: Caps, start: int, g: Goal, used: int)
    requires g.budget.Some? && StillOn(w.row, g, used) && Scripts(turns)
    ensures var t := Loop(w, turns, caps, start);
            && t.continues <= Left(w.row)
            && t.wraps <= Unreported(w, g) + AllClears(turns)
            && t.continues + t.wraps <= caps.continuations
            && (t.done || t.continues + t.wraps == |turns|)
    decreases turns
  {
    var prompt := NextPrompt(w.turn, w.row, false);
    if !Capped(w, caps, start) && !prompt.NoPrompt? && turns != [] {
      var v, nowUsed := LoopOnce(w, turns, caps, start, g, used);
      ContinuationIsBounded(v, turns[1..], caps.(continuations := caps.continuations - 1), start, g, nowUsed);
    }
  }

  /** So the loop stops by itself once it has been given enough turns, without any cap. */
  lemma ContinuationTerminates(w: World, turns: seq<Script>, caps: Caps, start: int)
    requires w.row.Some? && RowInv(w.row.value) && w.row.value.budget.Some? && Scripts(turns)
    requires |turns| > Left(w.row) + 1 + AllClears(turns)
    ensures Loop(w, turns, caps, start).done
  {
    ContinuationIsBounded(w, turns, caps, start, w.row.value, w.row.value.tokensUsed);
  }

  /** A loop that has stopped takes no further turns, and one that has not took them all. */
  lemma {:induction false} DoneLoopTakesNoMore(w: World, turns: seq<Script>, more: Script, caps: Caps, start: int)
    ensures var t, longer := Loop(w, turns, caps, start), Loop(w, turns + [more], caps, start);
            if t.done then longer == t else longer.continues + longer.wraps == |turns| + 1
    decreases turns
  {
    var prompt := NextPrompt(w.turn, w.row, false);
    if !Capped(w, caps, start) && !prompt.NoPrompt? {
      if turns == [] {
        assert ([] + [more])[1..] == [];
      } else {
        assert (turns + [more])[1..] == turns[1..] + [more];
        DoneLoopTakesNoMore(AfterTurn(Step(w, Ask(false)), turns[0]), turns[1..], more,
                            caps.(continuations := caps.continuations - 1), start);
      }
    }
  }

  // ------------------------------------------------------------- a second wrap-up

  /** What can happen from the start of a turn to the next question for a prompt; the calls
      of the turn's end may stand anywhere among the others. */
  predicate WithinTurn(es: seq<Event>)
  {
    forall i :: 0 <= i < |es| ==> !es[i].Start? && !es[i].Ask?
  }

  /** Some tool call of the turn made the runtime forget its wrap-up prompt: the updating tool
      found a goal that matches, or the creating tool inserted one. */
  predicate Forgets(w: World, es: seq<Event>)
    decreases es
  {
    es != [] &&
    ((es[0].UpdateTool? && es[0].op.Update? && w.row.Some? && Matches(w.row.value, es[0].op.update.expected))
     || (es[0].CreateTool? && es[0].op.Insert? && RowAfter(w.row, es[0].op) != w.row)
     || Forgets(Step(w, es[0]), es[1..]))
  }

  lemma {:induction false} ForgettingIsLasting(w: World, es: seq<Event>)
    requires WithinTurn(es)
    ensures GoalAccounting.Run(w, es).turn.reported == if Forgets(w, es) then None else w.turn.reported
    decreases es
  {
    if es != [] {
      ForgettingIsLasting(Step(w, es[0]), es[1..]);
      var v := Step(w, es[0]);
      assert !es[0].Start? && !es[0].Ask?;
    }
  }

  /** When a goal whose wrap-up prompt was given gets another one after its next turn: exactly
      if it is still budget-limited and a tool call of that turn made the runtime forget. A
      different goal that is budget-limited by then gets its own. */
  lemma SecondWrapUpIff(w: World, readFails: bool, startClock: real, es: seq<Event>)
    requires w.row.Some? && w.turn.reported == Some(w.row.value.goalId) && WithinTurn(es)
    ensures var started := Step(w, Start(readFails, startClock));
            var v := GoalAccounting.Run(started, es);
            NextPrompt(v.turn, v.row, false).WrapUp? <==>
              && v.row.Some? && v.row.value.status.BudgetLimited?
              && (v.row.value.goalId == w.row.value.goalId ==> Forgets(started, es))
  {
    var started := Step(w, Start(readFails, startClock));
    ForgettingIsLasting(started, es);
    assert started.turn.reported == w.turn.reported;
  }

  /** A turn of an agent that reports "blocked" through the updating tool. */
  const INSIST := Script([UpdateTool(Update("", GoalUpdate(None, Some(Blocked), Keep, None), 0))],
                         1, false, false, false, 0.0, 0.0, 0)

  /** Out of budget, and the wrap-up prompt may still be asked for. */
  predicate WrapUpDue(w: World)
  {
    w.row.Some? && w.row.value.status.BudgetLimited? && w.turn.reported != Some(w.row.value.goalId)
  }

  lemma LimitedStays(t: Turn, row: Option<Goal>, tokens: int)
    requires row.Some? && row.value.status.BudgetLimited?
    ensures var r := EndTurn(t, row, tokens, false, false, Faults(false, false, false), 0.0, 0).row;
            r.Some? && r.value.status.BudgetLimited?
  {
  }

  lemma InsistingTurn(w: World)
    requires WrapUpDue(w)
    ensures var v := AfterTurn(Step(w, Ask(false)), INSIST); WrapUpDue(v) && v.counter == w.counter + 1
  {
    var started := Step(Step(w, Ask(false)), Start(false, 0.0));
    var mids := INSIST.mids;
    assert mids[1..] == [];
    var cleared := Step(started, mids[0]);
    assert GoalAccounting.Run(started, mids) == GoalAccounting.Run(cleared, mids[1..]) == cleared;
    assert cleared.row.value.status.BudgetLimited? && cleared.turn.reported.None?;
    LimitedStays(Step(cleared, Spend(1)).turn, cleared.row, Step(cleared, Spend(1)).counter);
  }

  function Least(a: nat, b: nat): nat
  {
    if a < b then a else b
  }

  /** How many of n turns of one token each the caps let through. */
  function LetThrough(n: nat, caps: Caps, spent: int): nat
  {
    var capped := Least(n, caps.continuations);
    if caps.tokens == 0 then capped
    else if spent > caps.tokens then 0
    else Least(capped, caps.tokens - spent + 1)
  }

  lemma LoopWraps(w: World, turns: seq<Script>, caps: Caps, start: int)
    requires !Capped(w, caps, start) && turns != [] && NextPrompt(w.turn, w.row, false).WrapUp?
    ensures var rest := Loop(AfterTurn(Step(w, Ask(false)), turns[0]), turns[1..],
                             caps.(continuations := caps.continuations - 1), start);
            Loop(w, turns, caps, start) == rest.(wraps := rest.wraps + 1)
  {
  }

  lemma InsistOnce(w: World, turns: seq<Script>, caps: Caps, start: int) returns (v: World)
    requires WrapUpDue(w) && !Capped(w, caps, start) && turns != [] && turns[0] == INSIST
    ensures WrapUpDue(v) && v.counter == w.counter + 1
    ensures var rest := Loop(v, turns[1..], caps.(continuations := caps.continuations - 1), start);
            Loop(w, turns, caps, start) == rest.(wraps := rest.wraps + 1)
  {
    v := AfterTurn(Step(w, Ask(false)), turns[0]);
    InsistingTurn(w);
    LoopWraps(w, turns, caps, start);
  }

  /** Nothing but the caps bounds the wrap-ups: the tool's block leaves a budget-limited goal as
      it is but clears the memory of its wrap-up prompt, so that prompt comes again after
      every such turn that the scheduler's caps let through. */
  lemma {:induction false} ClearingRepeatsTheWrapUp(w: World, turns: seq<Script>, caps: Caps, start: int)
    requires WrapUpDue(w) && forall i :: 0 <= i < |turns| ==> turns[i] == INSIST
    ensures var t := Loop(w, turns, caps, start);
            t.continues == 0 && t.wraps == LetThrough(|turns|, caps, w.counter - start)
    decreases turns
  {
    if !Capped(w, caps, start) && turns != [] {
      var v := InsistOnce(w, turns, caps, start);
      ClearingRepeatsTheWrapUp(v, turns[1..], caps.(continuations := caps.continuations - 1), start);
      OneLess(|turns|, caps, w.counter - start);
    }
  }

  lemma OneLess(n: nat, caps: Caps, spent: int)
    requires n > 0 && caps.continuations > 0 && (caps.tokens == 0 || spent <= caps.tokens)
    ensures LetThrough(n, caps, spent) == 1 + LetThrough(n - 1, caps.(continuations := caps.continuations - 1), spent + 1)
  {
  }

  /** With the default caps that is 25 wrap-up prompts where one is meant. */
  lemma DefaultCapsAllowTwentyFive(w: World, turns: seq<Script>)
    requires WrapUpDue(w) && |turns| >= 25 && forall i :: 0 <= i < |turns| ==> turns[i] == INSIST
    ensures Loop(w, turns, DEFAULT_CAPS, w.counter).wraps == 25
  {
    ClearingRepeatsTheWrapUp(w, turns, DEFAULT_CAPS, w.counter);
  }
}
