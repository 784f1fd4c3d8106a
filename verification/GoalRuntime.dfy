/** Turn accounting and continuation prompts: koder_agent/core/goal_runtime.py. The pure
    functions state what each call does to the turn fields and to the session's row, the
    lemmas what a turn end achieves; the class performs the calls on a GoalTable. */
module GoalRuntime {
  import opened Prelude
  import opened GoalStore

  datatype Turn = Turn(
    goalId: Option<GoalId>, startedAt: Option<real>, baseline: int, created: bool, reported: Option<GoalId>)

  /** Which store calls of a turn end raise. A call that raises changes nothing. */
  datatype Faults = Faults(read: bool, account: bool, stop: bool)

  datatype Prompt = NoPrompt | Continue(goal: Goal) | WrapUp(goal: Goal)

  datatype TurnEnd = TurnEnd(turn: Turn, row: Option<Goal>, result: Option<Goal>)

  const FRESH_TURN := Turn(None, None, 0, false, None)

  function Bindable(row: Option<Goal>): bool
  {
    row.Some? && (row.value.status.Active? || row.value.status.BudgetLimited?)
  }

  /** A turn binds the goal it finds running or out of budget; the wrap-up memory lasts
      until a turn binds another goal. */
  function StartTurn(t: Turn, row: Option<Goal>, readFails: bool, tokens: int, clock: real): Turn
  {
    if readFails || !Bindable(row) then Turn(None, Some(clock), tokens, false, t.reported)
    else
      var id := row.value.goalId;
      Turn(Some(id), Some(clock), tokens, false, if t.reported == Some(id) then t.reported else None)
  }

  function MarkCreated(t: Turn, id: GoalId): Turn
  {
    t.(goalId := Some(id), created := true, reported := None)
  }

  function ClearReported(t: Turn): Turn
  {
    t.(reported := None)
  }

  /** Whole seconds since the turn started; a clock that went back counts as none. */
  function Elapsed(startedAt: Option<real>, clock: real): (seconds: nat)
    ensures startedAt.Some? && startedAt.value <= clock ==>
      startedAt.value + seconds as real <= clock < startedAt.value + seconds as real + 1.0
    ensures startedAt.None? || clock < startedAt.value ==> seconds == 0
  {
    if startedAt.None? || clock < startedAt.value then 0 else (clock - startedAt.value).Floor
  }

  function OwedTokens(t: Turn, tokens: int): nat
  {
    if t.created then 0 else Max(tokens - t.baseline, 0)
  }

  function OwedSeconds(t: Turn, clock: real): nat
  {
    if t.created then 0 else Elapsed(t.startedAt, clock)
  }

  function ModeFor(status: Status): Mode
  {
    match status
    case Complete => ActiveOrComplete
    case Paused => ActiveOrStopped
    case Blocked => ActiveOrStopped
    case UsageLimited => ActiveOrStopped
    case Active => ActiveOnly
    case BudgetLimited => ActiveOnly
  }

  /** The charge of a turn: the mode comes from the row that was read, the statement runs
      on the row as it is by then. */
  function Charged(read: Option<Goal>, row: Option<Goal>, id: GoalId, seconds: nat, tokens: nat, f: Faults,
      now: int): Option<Goal>
  {
    if f.read || read.None? || read.value.goalId != id || f.account then row
    else RowAfter(row, Account(read.value.session, seconds, tokens, ModeFor(read.value.status), Some(id), now))
  }

  function ChargeResult(read: Option<Goal>, row: Option<Goal>, id: GoalId, seconds: nat, tokens: nat,
      f: Faults, now: int): Option<Goal>
  {
    if f.read then None
    else if read.None? || read.value.goalId != id || f.account then read
    else Charged(read, row, id, seconds, tokens, f, now)
  }

  /** Cancellation pauses whatever goal is active, an error blocks the goal of the turn. */
  function Stopped(row: Option<Goal>, id: GoalId, error: bool, cancelled: bool, f: Faults, now: int): Option<Goal>
  {
    if f.stop then row
    else if cancelled then RowAfter(row, Stop("", Paused, now))
    else if error then RowAfter(row, Update("", GoalUpdate(None, Some(Blocked), Keep, Some(id)), now))
    else row
  }

  predicate StopLands(row: Option<Goal>, id: GoalId, error: bool, cancelled: bool, f: Faults)
  {
    !f.stop && row.Some? && (if cancelled then row.value.status.Active? else error && row.value.goalId == id)
  }

  function Ended(t: Turn): Turn
  {
    t.(goalId := None, startedAt := None)
  }

  function EndTurn(t: Turn, row: Option<Goal>, tokens: int, error: bool, cancelled: bool, f: Faults,
      clock: real, now: int): TurnEnd
  {
    if t.goalId.None? then TurnEnd(Ended(t), row, None)
    else
      var id := t.goalId.value;
      var seconds, owed := OwedSeconds(t, clock), OwedTokens(t, tokens);
      var charged := Charged(row, row, id, seconds, owed, f, now);
      var stopped := Stopped(charged, id, error, cancelled, f, now);
      TurnEnd(Ended(t), stopped,
              if StopLands(charged, id, error, cancelled, f) then stopped
              else ChargeResult(row, row, id, seconds, owed, f, now))
  }

  function NextPrompt(t: Turn, row: Option<Goal>, readFails: bool): Prompt
  {
    if readFails || !Bindable(row) then NoPrompt
    else if row.value.status.Active? then Continue(row.value)
    else if t.reported == Some(row.value.goalId) then NoPrompt
    else WrapUp(row.value)
  }

  function Reported(t: Turn, p: Prompt): Turn
  {
    if p.WrapUp? then t.(reported := Some(p.goal.goalId)) else t
  }

  // ------------------------------------------------------- one charge, one stop

  /** A charge is recorded exactly if both calls succeed, the goal read and the goal
      charged are the turn's, and the mode chosen for the status read still admits the
      status charged. Nothing else moves the counter. */
  lemma ChargeLandsIff(read: Option<Goal>, row: Option<Goal>, id: GoalId, seconds: nat, tokens: nat, f: Faults,
      now: int)
    requires tokens > 0
    ensures Charged(read, row, id, seconds, tokens, f, now) != row <==>
      && !f.read && !f.account
      && read.Some? && read.value.goalId == id && row.Some? && row.value.goalId == id
      && (read.value.status.Complete? || !row.value.status.Complete?)
      && (row.value.status.Paused? || row.value.status.Blocked? || row.value.status.UsageLimited? ==>
            read.value.status.Paused? || read.value.status.Blocked? || read.value.status.UsageLimited?)
    ensures Charged(read, row, id, seconds, tokens, f, now) != row ==>
      Charged(read, row, id, seconds, tokens, f, now).value.tokensUsed == row.value.tokensUsed + tokens
  {
  }

  /** Without a status change in between the mode always fits. */
  lemma ModeAdmitsStatusRead(status: Status)
    ensures Admits(ModeFor(status), status)
    ensures ModeFor(status) != ActiveStatusOnly
  {
  }

  /** A turn end without a failing call charges its goal what the counter gained since the
      baseline, not less than nothing, and the whole seconds since the turn began; the turn
      that created the goal charges nothing. */
  lemma TurnIsCharged(t: Turn, row: Option<Goal>, tokens: int, error: bool, cancelled: bool, stopFails: bool,
                      clock: real, now: int)
    requires row.Some? && t.goalId == Some(row.value.goalId)
    ensures var r := EndTurn(t, row, tokens, error, cancelled, Faults(false, false, stopFails), clock, now).row;
            && r.Some? && r.value.goalId == row.value.goalId
            && r.value.tokensUsed == row.value.tokensUsed + (if t.created || tokens < t.baseline then 0 else tokens - t.baseline)
            && (t.created || t.startedAt.None? || clock < t.startedAt.value ==> r.value.timeUsed == row.value.timeUsed)
            && (!t.created && t.startedAt.Some? && t.startedAt.value <= clock ==>
                  0.0 <= clock - t.startedAt.value - (r.value.timeUsed - row.value.timeUsed) as real < 1.0)
  {
    ModeAdmitsStatusRead(row.value.status);
  }

  /** A turn binds an active or budget-limited goal, and takes the counter and the clock as they
      are; from its start to its end the goal is charged what was spent and, up to a second,
      the time that passed. */
  lemma TurnSpan(t: Turn, row: Option<Goal>, before: int, after: int, begin: real, finish: real, now: int)
    requires row.Some? && (row.value.status.Active? || row.value.status.BudgetLimited?)
    requires before <= after && begin <= finish
    ensures var started := StartTurn(t, row, false, before, begin);
            var r := EndTurn(started, row, after, false, false, Faults(false, false, false), finish, now).row;
            && started.goalId == Some(row.value.goalId) && !started.created
            && r.Some? && r.value.tokensUsed == row.value.tokensUsed + (after - before)
            && 0.0 <= finish - begin - (r.value.timeUsed - row.value.timeUsed) as real < 1.0
  {
    TurnIsCharged(StartTurn(t, row, false, before, begin), row, after, false, false, false, finish, now);
  }

  /** A turn that finds no such goal, or cannot read it, is bound to none. */
  lemma UnboundTurn(t: Turn, row: Option<Goal>, readFails: bool, tokens: int, clock: real)
    requires readFails || row.None? || !(row.value.status.Active? || row.value.status.BudgetLimited?)
    ensures StartTurn(t, row, readFails, tokens, clock).goalId.None?
    ensures StartTurn(t, row, readFails, tokens, clock).reported == t.reported
  {
  }

  /** A cancelled turn leaves an active goal paused, a failed one leaves its goal blocked unless
      the budget is used up, and without either the end leaves the status to the charge. */
  lemma StopFollows(row: Option<Goal>, id: GoalId, error: bool, cancelled: bool, now: int)
    requires row.Some?
    ensures var r := Stopped(row, id, error, cancelled, Faults(false, false, false), now);
            && r.Some? && r.value.goalId == row.value.goalId && r.value.tokensUsed == row.value.tokensUsed
            && r.value.status ==
                 if cancelled then (if row.value.status.Active? then Paused else row.value.status)
                 else if error && row.value.goalId == id && !row.value.status.BudgetLimited? then Blocked
                 else row.value.status
    ensures Stopped(row, id, error, cancelled, Faults(false, false, true), now) == row
  {
  }

  /** The charge answers with the goal as it is after the charge, or as it was read if no
      charge was made. */
  lemma ChargeAnswers(read: Option<Goal>, row: Option<Goal>, id: GoalId, seconds: nat, tokens: nat, f: Faults, now: int)
    ensures var r := ChargeResult(read, row, id, seconds, tokens, f, now);
            if f.read then r.None?
            else if f.account || read.None? || read.value.goalId != id then r == read
            else r == Charged(read, row, id, seconds, tokens, f, now)
  {
  }

  /** After its end a turn is bound to no goal; what the wrap-up memory holds stays. */
  lemma EndedTurnIsFree(t: Turn, row: Option<Goal>, tokens: int, error: bool, cancelled: bool, f: Faults,
                        clock: real, now: int)
    ensures var v := EndTurn(t, row, tokens, error, cancelled, f, clock, now).turn;
            v.goalId.None? && v.startedAt.None? && v.reported == t.reported
  {
  }

  /** on_turn_end answers with the goal as it is afterwards, and with nothing if the turn was
      bound to none, or the goal could not be read and no stop was applied either. */
  lemma TurnEndAnswers(t: Turn, row: Option<Goal>, tokens: int, error: bool, cancelled: bool, f: Faults,
                       clock: real, now: int)
    ensures var end := EndTurn(t, row, tokens, error, cancelled, f, clock, now);
            var unread := f.read && (f.stop || row.None? ||
                            if cancelled then !row.value.status.Active? else !error || Some(row.value.goalId) != t.goalId);
            end.result == if t.goalId.None? || unread then None else end.row
  {
    if t.goalId.Some? && row.Some? {
      ModeAdmitsStatusRead(row.value.status);
    }
  }

  /** At a turn end a complete goal stays complete, except exactly when the turn was bound to
      it and failed without being cancelled, and the block itself succeeded. */
  lemma CompleteSurvivesIff(t: Turn, row: Option<Goal>, tokens: int, error: bool, cancelled: bool,
                            f: Faults, clock: real, now: int)
    requires row.Some? && row.value.status.Complete?
    ensures var r := EndTurn(t, row, tokens, error, cancelled, f, clock, now).row;
            && r.Some? && r.value.goalId == row.value.goalId
            && (r.value.status.Complete? <==>
                  !(t.goalId == Some(row.value.goalId) && error && !cancelled && !f.stop))
            && (!r.value.status.Complete? ==> r.value.status.Blocked?)
  {
  }

  /** A turn that completed its goal and then failed leaves the goal blocked. */
  lemma CompleteIsNotAbsorbing() returns (t: Turn, row: Option<Goal>)
    ensures row.Some? && row.value.status.Complete? && RowInv(row.value)
    ensures var end := EndTurn(t, row, 7, true, false, Faults(false, false, false), 1.0, 1);
            end.row.Some? && end.row.value.goalId == row.value.goalId && end.row.value.status.Blocked?
  {
    t := Turn(Some("g"), Some(0.0), 0, false, None);
    row := Some(Goal("s", "g", "done", Complete, None, 0, 0, 0, 0));
  }

  /** When a continuation prompt follows a turn: only if the goal is still active after
      the charge and no stop was applied to it. A cancelled or failed turn that was bound
      to its goal is followed by one only if the stop itself failed, or the error belongs
      to a goal that has been replaced. */
  lemma ContinuationFollowsIff(t: Turn, row: Option<Goal>, tokens: int, error: bool, cancelled: bool,
                               f: Faults, clock: real, now: int, readFails: bool)
    requires row.Some? ==> RowInv(row.value)
    ensures var end := EndTurn(t, row, tokens, error, cancelled, f, clock, now);
            NextPrompt(end.turn, end.row, readFails).Continue? <==>
              && !readFails && row.Some? && row.value.status.Active?
              && (t.goalId == Some(row.value.goalId) && !f.read && !f.account ==>
                    !Exhausted(row.value.tokensUsed + OwedTokens(t, tokens), row.value.budget))
              && (t.goalId.Some? && !f.stop ==>
                    !cancelled && (error ==> row.value.goalId != t.goalId.value))
  {
    if t.goalId.Some? {
      var charged := Charged(row, row, t.goalId.value, OwedSeconds(t, clock), OwedTokens(t, tokens), f, now);
      if row.Some? {
        ModeAdmitsStatusRead(row.value.status);
        assert charged.Some? && charged.value.goalId == row.value.goalId;
        assert charged.value.status.Active? <==>
          && row.value.status.Active?
          && (t.goalId == Some(row.value.goalId) && !f.read && !f.account ==>
                !Exhausted(row.value.tokensUsed + OwedTokens(t, tokens), row.value.budget));
      }
    }
  }

  /** When the wrap-up prompt follows a turn instead, whether the turn was stopped or not: if
      it is not given yet and the goal was out of budget, or the charge of this turn puts an
      unfinished goal there. */
  lemma WrapUpFollowsIff(t: Turn, row: Option<Goal>, tokens: int, error: bool, cancelled: bool,
                         f: Faults, clock: real, now: int, readFails: bool)
    requires row.Some? ==> RowInv(row.value)
    ensures var end := EndTurn(t, row, tokens, error, cancelled, f, clock, now);
            NextPrompt(end.turn, end.row, readFails).WrapUp? <==>
              && !readFails && row.Some? && t.reported != Some(row.value.goalId)
              && (row.value.status.BudgetLimited?
                  || (t.goalId == Some(row.value.goalId) && !f.read && !f.account && !row.value.status.Complete?
                      && (OwedTokens(t, tokens) > 0 || OwedSeconds(t, clock) > 0)
                      && Exhausted(row.value.tokensUsed + OwedTokens(t, tokens), row.value.budget)))
  {
    if t.goalId.Some? && row.Some? {
      var seconds, owed := OwedSeconds(t, clock), OwedTokens(t, tokens);
      var charged := Charged(row, row, t.goalId.value, seconds, owed, f, now);
      ModeAdmitsStatusRead(row.value.status);
      ChargeTripsIff(row, t.goalId.value, seconds, owed, f, now);
      StopKeepsLimit(charged, t.goalId.value, error, cancelled, f, now);
    }
  }

  lemma ChargeTripsIff(row: Option<Goal>, id: GoalId, seconds: nat, tokens: nat, f: Faults, now: int)
    requires row.Some? && RowInv(row.value)
    ensures var charged := Charged(row, row, id, seconds, tokens, f, now);
            && charged.Some? && charged.value.goalId == row.value.goalId
            && (charged.value.status.BudgetLimited? <==>
                  || row.value.status.BudgetLimited?
                  || (id == row.value.goalId && !f.read && !f.account && !row.value.status.Complete?
                      && (tokens > 0 || seconds > 0) && Exhausted(row.value.tokensUsed + tokens, row.value.budget)))
  {
  }

  lemma StopKeepsLimit(row: Option<Goal>, id: GoalId, error: bool, cancelled: bool, f: Faults, now: int)
    requires row.Some?
    ensures var r := Stopped(row, id, error, cancelled, f, now);
            r.Some? && r.value.goalId == row.value.goalId
            && (r.value.status.BudgetLimited? <==> row.value.status.BudgetLimited?)
  {
  }

  /** So a cancelled turn can be followed by a prompt although nothing failed. */
  lemma CancelledTurnGetsWrapUp() returns (t: Turn, row: Option<Goal>)
    ensures row.Some? && row.value.status.Active? && RowInv(row.value) && t.goalId == Some(row.value.goalId)
    ensures var end := EndTurn(t, row, 10, false, true, Faults(false, false, false), 1.0, 1);
            NextPrompt(end.turn, end.row, false).WrapUp?
  {
    t := Turn(Some("g"), Some(0.0), 0, false, None);
    row := Some(Goal("s", "g", "work", Active, Some(5), 0, 0, 0, 0));
  }

  /** clear_turn_goal changes neither the charge nor the stop nor the answer of the turn, and
      the next prompt exactly if it is a wrap-up that was already given. */
  lemma ClearingOnlyRenewsTheWrapUp(t: Turn, row: Option<Goal>, tokens: int, error: bool, cancelled: bool,
                                    f: Faults, clock: real, now: int, readFails: bool)
    ensures var end, cleared := EndTurn(t, row, tokens, error, cancelled, f, clock, now),
                                EndTurn(ClearReported(t), row, tokens, error, cancelled, f, clock, now);
            && cleared.row == end.row && cleared.result == end.result
            && (NextPrompt(cleared.turn, end.row, readFails) != NextPrompt(end.turn, end.row, readFails) <==>
                  !readFails && end.row.Some? && end.row.value.status.BudgetLimited?
                  && t.reported == Some(end.row.value.goalId))
  {
  }

  // ------------------------------------------------------------------ the class

  class Runtime {
    const session: SessionId
    const store: GoalTable
    var turnGoalId: Option<GoalId>
    var turnStartedAt: Option<real>
    var turnTokenBaseline: int
    var goalCreatedThisTurn: bool
    var budgetLimitReportedGoalId: Option<GoalId>

    ghost function State(): Turn
      reads this
    {
      Turn(turnGoalId, turnStartedAt, turnTokenBaseline, goalCreatedThisTurn, budgetLimitReportedGoalId)
    }

    constructor (session: SessionId, store: GoalTable)
      ensures this.session == session && this.store == store && State() == FRESH_TURN
    {
      this.session, this.store := session, store;
      turnGoalId, turnStartedAt, turnTokenBaseline := None, None, 0;
      goalCreatedThisTurn, budgetLimitReportedGoalId := false, None;
    }

    method OnTurnStart(tokens: int, clock: real, readFails: bool)
      modifies this
      ensures State() == StartTurn(old(State()), Row(store.goals, session), readFails, tokens, clock)
    {
      turnStartedAt := Some(clock);
      turnTokenBaseline := tokens;
      goalCreatedThisTurn := false;
      turnGoalId := None;
      if readFails {
        return;
      }
      var goal := store.GetGoal(session);
      if goal.Some? && (goal.value.status.Active? || goal.value.status.BudgetLimited?) {
        turnGoalId := Some(goal.value.goalId);
        if budgetLimitReportedGoalId != None && budgetLimitReportedGoalId != Some(goal.value.goalId) {
          budgetLimitReportedGoalId := None;
        }
      }
    }

    method MarkGoalCreated(goalId: GoalId)
      modifies this
      ensures State() == MarkCreated(old(State()), goalId)
      ensures forall tokens :: OwedTokens(State(), tokens) == 0
      ensures forall clock :: OwedSeconds(State(), clock) == 0
      ensures forall row: Option<Goal> :: row.Some? && row.value.status.BudgetLimited? ==>
        NextPrompt(State(), row, false) == WrapUp(row.value)
    {
      turnGoalId := Some(goalId);
      goalCreatedThisTurn := true;
      budgetLimitReportedGoalId := None;
    }

    method ClearTurnGoal()
      modifies this
      ensures State() == ClearReported(old(State()))
      ensures forall row: Option<Goal> :: row.Some? && row.value.status.BudgetLimited? ==>
        NextPrompt(State(), row, false) == WrapUp(row.value)
    {
      budgetLimitReportedGoalId := None;
    }

    /** _account */
    method ChargeTurn(goalId: GoalId, seconds: nat, tokens: nat, f: Faults, now: int) returns (goal: Option<Goal>)
      requires store.Valid()
      modifies store
      ensures store.Valid()
      ensures var row := Row(old(store.goals), session);
              && Row(store.goals, session) == Charged(row, row, goalId, seconds, tokens, f, now)
              && goal == ChargeResult(row, row, goalId, seconds, tokens, f, now)
      ensures forall s :: s != session ==> Row(store.goals, s) == Row(old(store.goals), s)
    {
      if f.read {
        return None;
      }
      var current := store.GetGoal(session);
      if current.None? || current.value.goalId != goalId {
        return current;
      }
      var mode;
      if current.value.status.Complete? {
        mode := ActiveOrComplete;
      } else if current.value.status.Paused? || current.value.status.Blocked? || current.value.status.UsageLimited? {
        mode := ActiveOrStopped;
      } else {
        mode := ActiveOnly;
      }
      if f.account {
        return current;
      }
      ghost var op := Account(session, seconds, tokens, mode, Some(goalId), now);
      ApplyKeepsInv(store.goals, op);
      var _, charged := store.AccountUsage(session, seconds, tokens, mode, Some(goalId), now);
      return charged;
    }

    /** _safe_pause and _safe_block */
    method ApplyStop(goalId: GoalId, error: bool, cancelled: bool, f: Faults, now: int) returns (goal: Option<Goal>)
      requires store.Valid() && (error || cancelled)
      modifies store
      ensures store.Valid()
      ensures var row := Row(old(store.goals), session);
              && Row(store.goals, session) == Stopped(row, goalId, error, cancelled, f, now)
              && goal == (if StopLands(row, goalId, error, cancelled, f) then Row(store.goals, session) else None)
      ensures forall s :: s != session ==> Row(store.goals, s) == Row(old(store.goals), s)
    {
      if f.stop {
        return None;
      }
      if cancelled {
        ApplyKeepsInv(store.goals, Stop(session, Paused, now));
        goal := store.UpdateActiveGoalStatus(session, Paused, now);
      } else {
        var block := GoalUpdate(None, Some(Blocked), Keep, Some(goalId));
        ApplyKeepsInv(store.goals, Update(session, block, now));
        goal := store.UpdateGoal(session, block, now);
      }
    }

    /** The deltas of on_turn_end. */
    method TurnDeltas(startedAt: Option<real>, tokens: int, clock: real) returns (seconds: nat, spent: nat)
      ensures startedAt == turnStartedAt ==>
        seconds == OwedSeconds(State(), clock) && spent == OwedTokens(State(), tokens)
    {
      seconds := 0;
      if startedAt.Some? && clock >= startedAt.value {
        seconds := (clock - startedAt.value).Floor;
      }
      spent := Max(tokens - turnTokenBaseline, 0);
      if goalCreatedThisTurn {
        spent, seconds := 0, 0;
      }
    }

    method OnTurnEnd(tokens: int, error: bool, cancelled: bool, f: Faults, clock: real,
        now: int) returns (goal: Option<Goal>)
      requires store.Valid()
      modifies this, store
      ensures store.Valid()
      ensures TurnEnd(State(), Row(store.goals, session), goal) ==
              EndTurn(old(State()), Row(old(store.goals), session), tokens, error, cancelled, f, clock, now)
      ensures forall s :: s != session ==> Row(store.goals, s) == Row(old(store.goals), s)
    {
      var goalId, startedAt := turnGoalId, turnStartedAt;
      var seconds, spent := TurnDeltas(startedAt, tokens, clock);
      turnGoalId, turnStartedAt := None, None;
      if goalId.None? {
        return None;
      }
      goal := ChargeTurn(goalId.value, seconds, spent, f, now);
      if cancelled || error {
        var stopped := ApplyStop(goalId.value, error, cancelled, f, now);
        if stopped.Some? {
          return stopped;
        }
      }
    }

    method NextContinuationPrompt(readFails: bool) returns (p: Prompt)
      modifies this
      ensures p == NextPrompt(old(State()), Row(store.goals, session), readFails)
      ensures State() == Reported(old(State()), p)
    {
      if readFails {
        return NoPrompt;
      }
      var goal := store.GetGoal(session);
      if goal.None? {
        return NoPrompt;
      }
      if goal.value.status.Active? {
        return Continue(goal.value);
      }
      if goal.value.status.BudgetLimited? {
        if budgetLimitReportedGoalId == Some(goal.value.goalId) {
          return NoPrompt;
        }
        budgetLimitReportedGoalId := Some(goal.value.goalId);
        return WrapUp(goal.value);
      }
      return NoPrompt;
    }
  }
}
