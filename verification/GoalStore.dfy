/** Session goals: koder_agent/core/goals.py. The row functions give the meaning of each
    SQL statement; the class performs the statements case by case, as the source does. */
module GoalStore {
  import opened Prelude

  type SessionId = string
  type GoalId = string

  datatype Status = Active | Paused | Blocked | UsageLimited | BudgetLimited | Complete

  datatype Goal = Goal(
    session: SessionId, goalId: GoalId, objective: string, status: Status, budget: Option<int>,
    tokensUsed: int, timeUsed: int, createdAt: int, updatedAt: int)

  datatype Mode = ActiveStatusOnly | ActiveOnly | ActiveOrComplete | ActiveOrStopped

  /** An absent budget field, or a value to store (None clears the budget). */
  datatype BudgetChange = Keep | Set(budget: Option<int>)

  datatype GoalUpdate = GoalUpdate(
    objective: Option<string>, status: Option<Status>, budget: BudgetChange, expected: Option<GoalId>)

  function Max(a: int, b: int): int
  {
    if a > b then a else b
  }

  /** The budget is set and used up. */
  predicate Exhausted(tokensUsed: int, budget: Option<int>)
  {
    budget.Some? && tokensUsed >= budget.value
  }

  /** What the database never violates: an active goal has budget left. */
  predicate RowInv(g: Goal)
  {
    (g.status.Active? ==> !Exhausted(g.tokensUsed, g.budget)) && g.tokensUsed >= 0 && g.timeUsed >= 0
  }

  predicate Admits(mode: Mode, status: Status)
  {
    match mode
    case ActiveStatusOnly => status.Active?
    case ActiveOnly => status.Active? || status.BudgetLimited?
    case ActiveOrComplete => status.Active? || status.BudgetLimited? || status.Complete?
    case ActiveOrStopped => !status.Complete?
  }

  // ------------------------------------------------------------ row functions

  /** A new row; an active goal whose budget is zero or less starts budget-limited. */
  function NewRow(session: SessionId, goalId: GoalId, objective: string, status: Status, budget: Option<int>,
      now: int): (g: Goal)
    ensures RowInv(g)
  {
    Goal(session, goalId, objective, if status.Active? && Exhausted(0, budget) then BudgetLimited else status,
         budget, 0, 0, now, now)
  }

  /** A partial update. Whatever fields it names: pausing or blocking leaves a
      budget-limited goal as it is, and no goal becomes or stays active without budget. */
  function UpdateRow(g: Goal, u: GoalUpdate, now: int): (r: Goal)
    ensures RowInv(g) ==> RowInv(r)
    ensures r.tokensUsed == g.tokensUsed && r.timeUsed == g.timeUsed && r.goalId == g.goalId && r.session == g.session
  {
    if u.objective.None? && u.status.None? && u.budget.Keep? then g
    else
      var budget := if u.budget.Set? then u.budget.budget else g.budget;
      var wanted := if u.status.Some? then u.status.value else g.status;
      var status :=
        if g.status.BudgetLimited? && (u.status == Some(Paused) || u.status == Some(Blocked)) then BudgetLimited
        else if wanted.Active? && Exhausted(g.tokensUsed, budget) then BudgetLimited
        else wanted;
      g.(objective := if u.objective.Some? then u.objective.value else g.objective,
         status := status, budget := budget, updatedAt := now)
  }

  /** A new goal starts from zero with what was asked for, unless its budget is used up
      from the start. */
  lemma NewGoalStores(session: SessionId, goalId: GoalId, objective: string, status: Status, budget: Option<int>, now: int)
    ensures var g := NewRow(session, goalId, objective, status, budget, now);
            && g.session == session && g.goalId == goalId && g.objective == objective && g.budget == budget
            && g.tokensUsed == 0 && g.timeUsed == 0 && g.createdAt == now && g.updatedAt == now
            && (g.status == status || (status.Active? && g.status.BudgetLimited?))
            && (g.status != status <==> status.Active? && budget.Some? && budget.value <= 0)
  {
  }

  /** What a partial update stores: what it names and nothing else. Blocking or pausing is
      stored unless the budget is already used up, and activation as far as the budget lasts. */
  lemma UpdateStores(g: Goal, u: GoalUpdate, now: int)
    ensures var r := UpdateRow(g, u, now);
            && r.objective == (if u.objective.Some? then u.objective.value else g.objective)
            && r.budget == (if u.budget.Set? then u.budget.budget else g.budget)
            && r.createdAt == g.createdAt
            && r.updatedAt == (if u.objective.None? && u.status.None? && u.budget.Keep? then g.updatedAt else now)
    ensures var r := UpdateRow(g, u, now);
            && (u.status == Some(Paused) || u.status == Some(Blocked) ==>
                  r.status == if g.status.BudgetLimited? then BudgetLimited else u.status.value)
            && (u.status == Some(Complete) || u.status == Some(UsageLimited) || u.status == Some(BudgetLimited) ==>
                  r.status == u.status.value)
            && (u.status == Some(Active) ==> r.status == if Exhausted(g.tokensUsed, r.budget) then BudgetLimited else Active)
            && (u.status.None? && RowInv(g) ==>
                  r.status == if g.status.Active? && Exhausted(g.tokensUsed, r.budget) then BudgetLimited else g.status)
  {
  }

  predicate Matches(g: Goal, expected: Option<GoalId>)
  {
    expected.None? || expected.value == g.goalId
  }

  /** Pausing reaches active goals; a usage limit also replaces a budget limit. */
  predicate StopReaches(g: Goal, status: Status)
  {
    g.status.Active? || (status.UsageLimited? && g.status.BudgetLimited?)
  }

  /** A charge. Crossing the budget stops an active goal, and every unfinished goal in
      the widest mode. */
  function ChargeRow(g: Goal, timeDelta: nat, tokenDelta: nat, mode: Mode, now: int): (r: Goal)
    requires Admits(mode, g.status)
    ensures RowInv(g) ==> RowInv(r)
    ensures r.tokensUsed == g.tokensUsed + tokenDelta && r.timeUsed == g.timeUsed + timeDelta
    ensures r.goalId == g.goalId && r.session == g.session && r.budget == g.budget
    ensures g.status.Active? ==> (r.status.Active? <==> !Exhausted(r.tokensUsed, g.budget))
    ensures r.status != g.status ==> r.status.BudgetLimited?
  {
    var trips := (if mode.ActiveOrStopped? then !g.status.Complete? else g.status.Active?)
                 && Exhausted(g.tokensUsed + tokenDelta, g.budget);
    g.(tokensUsed := g.tokensUsed + tokenDelta, timeUsed := g.timeUsed + timeDelta,
       status := if trips then BudgetLimited else g.status, updatedAt := now)
  }

  // ---------------------------------------------------------------- operations

  datatype Op =
    | Replace(session: SessionId, goalId: GoalId, objective: string, status: Status, budget: Option<int>, now: int)
    | Insert(session: SessionId, goalId: GoalId, objective: string, status: Status, budget: Option<int>, now: int)
    | Update(session: SessionId, update: GoalUpdate, now: int)
    | Stop(session: SessionId, status: Status, now: int)
    | Account(session: SessionId, timeDelta: int, tokenDelta: int, mode: Mode, expected: Option<GoalId>, now: int)
    | Delete(session: SessionId)

  type Goals = map<SessionId, Goal>

  /** The row of the operation's session afterwards. */
  function RowAfter(row: Option<Goal>, op: Op): Option<Goal>
  {
    match op
    case Replace(session, goalId, objective, status, budget, now) =>
      Some(NewRow(session, goalId, objective, status, budget, now))
    case Insert(session, goalId, objective, status, budget, now) =>
      if row.None? || row.value.status.Complete? then Some(NewRow(session, goalId, objective, status, budget, now))
      else row
    case Update(_, u, now) =>
      if row.Some? && Matches(row.value, u.expected) then Some(UpdateRow(row.value, u, now)) else row
    case Stop(_, status, now) =>
      if row.Some? && StopReaches(row.value, status) then Some(row.value.(status := status, updatedAt := now)) else row
    case Account(_, timeDelta, tokenDelta, mode, expected, now) =>
      if row.Some? && Admits(mode, row.value.status) && Matches(row.value, expected)
         && (Max(timeDelta, 0) > 0 || Max(tokenDelta, 0) > 0)
      then Some(ChargeRow(row.value, Max(timeDelta, 0), Max(tokenDelta, 0), mode, now))
      else row
    case Delete(_) => None
  }

  /** What the other statements leave in the row: a replacement always stores its goal, an
      insertion only where there is no unfinished one, a stop only changes the status of the
      goals it reaches, a deletion leaves nothing. */
  lemma StatementsStore(row: Option<Goal>, op: Op)
    ensures op.Replace? || (op.Insert? && (row.None? || row.value.status.Complete?)) ==>
      && RowAfter(row, op).Some?
      && var g := RowAfter(row, op).value;
         && g.goalId == op.goalId && g.session == op.session && g.objective == op.objective && g.budget == op.budget
         && g.tokensUsed == 0 && g.timeUsed == 0 && g.createdAt == op.now && g.updatedAt == op.now
    ensures op.Insert? && row.Some? && !row.value.status.Complete? ==> RowAfter(row, op) == row
    ensures op.Stop? && row.Some? && (row.value.status.Active? || (op.status.UsageLimited? && row.value.status.BudgetLimited?)) ==>
      RowAfter(row, op) == Some(row.value.(status := op.status, updatedAt := op.now))
    ensures op.Stop? && (row.None? || !row.value.status.Active?) && op.status.Paused? ==> RowAfter(row, op) == row
    ensures op.Delete? ==> RowAfter(row, op).None?
  {
  }

  function Row(goals: Goals, session: SessionId): Option<Goal>
  {
    if session in goals then Some(goals[session]) else None
  }

  function PutRow(goals: Goals, session: SessionId, row: Option<Goal>): Goals
  {
    if row.Some? then goals[session := row.value] else goals - {session}
  }

  function Apply(goals: Goals, op: Op): Goals
  {
    PutRow(goals, op.session, RowAfter(Row(goals, op.session), op))
  }

  /** At most one goal per session is the map itself; every row keeps its invariant. */
  predicate StoreInv(goals: Goals)
  {
    forall s :: s in goals ==> goals[s].session == s && RowInv(goals[s])
  }

  /** Pausing and usage limiting are the only two uses of the active-status setter. */
  predicate Callable(op: Op)
  {
    op.Stop? ==> op.status.Paused? || op.status.UsageLimited?
  }

  lemma ApplyKeepsInv(goals: Goals, op: Op)
    requires StoreInv(goals) && Callable(op)
    ensures StoreInv(Apply(goals, op))
    ensures forall s :: s != op.session ==> Row(Apply(goals, op), s) == Row(goals, s)
  {
    var after := Apply(goals, op);
    forall s | s in after
      ensures after[s].session == s && RowInv(after[s])
    {
      if s != op.session {
        assert after[s] == goals[s];
      }
    }
  }

  function Run(goals: Goals, ops: seq<Op>): Goals
    decreases ops
  {
    if ops == [] then goals else Run(Apply(goals, ops[0]), ops[1..])
  }

  /** Operations that create goals never reuse the id. */
  predicate NeverIssues(ops: seq<Op>, id: GoalId)
  {
    forall i :: 0 <= i < |ops| && (ops[i].Replace? || ops[i].Insert?) ==> ops[i].goalId != id
  }

  /** Every reachable store satisfies the invariant; the usage of a fixed goal never
      decreases, and a goal that is gone stays gone. */
  lemma {:induction false} ReachableStores(goals: Goals, ops: seq<Op>, s: SessionId, id: GoalId)
    requires StoreInv(goals) && NeverIssues(ops, id) && forall i :: 0 <= i < |ops| ==> Callable(ops[i])
    ensures StoreInv(Run(goals, ops))
    ensures var before, after := Row(goals, s), Row(Run(goals, ops), s);
            after.Some? && after.value.goalId == id ==>
              && before.Some? && before.value.goalId == id
              && before.value.tokensUsed <= after.value.tokensUsed
              && before.value.timeUsed <= after.value.timeUsed
              && before.value.createdAt == after.value.createdAt
    decreases ops
  {
    if ops != [] {
      ApplyKeepsInv(goals, ops[0]);
      ReachableStores(Apply(goals, ops[0]), ops[1..], s, id);
    }
  }

  /** The statement neither replaces nor deletes the goal of its session nor declares it done. */
  predicate LeavesUnfinished(op: Op)
  {
    !op.Replace? && !op.Delete? && (op.Update? ==> op.update.status != Some(Complete))
  }

  /** An unfinished goal is only lost to a replacement or a deletion: however often goals are
      inserted, it is the same goal afterwards, and still unfinished. */
  lemma {:induction false} UnfinishedGoalsStay(goals: Goals, ops: seq<Op>, s: SessionId)
    requires s in goals && !goals[s].status.Complete?
    requires forall i :: 0 <= i < |ops| && ops[i].session == s ==> Callable(ops[i]) && LeavesUnfinished(ops[i])
    ensures var after := Row(Run(goals, ops), s);
            after.Some? && after.value.goalId == goals[s].goalId && !after.value.status.Complete?
    decreases ops
  {
    if ops != [] {
      var next := RowAfter(Row(goals, ops[0].session), ops[0]);
      assert ops[0].session == s ==> Row(Apply(goals, ops[0]), s) == next;
      UnfinishedGoalsStay(Apply(goals, ops[0]), ops[1..], s);
    }
  }

  /** Statements that try to pause or block a goal, or leave its status to the store. */
  predicate Stops(op: Op)
  {
    || op.Insert? || op.Account? || (op.Stop? && op.status.Paused?)
    || (op.Update? && (op.update.status.None? || op.update.status.value.Paused? || op.update.status.value.Blocked?))
  }

  /** A budget-limited goal stays budget-limited through any pausing, blocking, charging and
      change of its budget. */
  lemma {:induction false} LimitsOutlastStops(goals: Goals, ops: seq<Op>, s: SessionId)
    requires s in goals && goals[s].status.BudgetLimited?
    requires forall i :: 0 <= i < |ops| && ops[i].session == s ==> Stops(ops[i])
    ensures var after := Row(Run(goals, ops), s);
            after.Some? && after.value.goalId == goals[s].goalId && after.value.status.BudgetLimited?
    decreases ops
  {
    if ops != [] {
      var next := RowAfter(Row(goals, ops[0].session), ops[0]);
      assert ops[0].session == s ==> Row(Apply(goals, ops[0]), s) == next;
      LimitsOutlastStops(Apply(goals, ops[0]), ops[1..], s);
    }
  }

  /** Which statements let a complete goal go: replacing, inserting over or deleting it, and
      setting another status on it; pausing, usage limits and charges never do. */
  lemma CompleteSurvivesStatementIff(row: Option<Goal>, op: Op)
    requires row.Some? && row.value.status.Complete? && Callable(op)
    requires op.Replace? || op.Insert? ==> op.goalId != row.value.goalId
    ensures var r := RowAfter(row, op);
            r.Some? && r.value.goalId == row.value.goalId && r.value.status.Complete? <==>
              && !op.Replace? && !op.Insert? && !op.Delete?
              && (op.Update? && op.update.status.Some? && Matches(row.value, op.update.expected) ==>
                    op.update.status.value.Complete?)
  {
  }

  // ----------------------------------------------------------------- the store

  class GoalTable {
    var goals: Goals

    predicate Valid()
      reads this
    {
      StoreInv(goals)
    }

    constructor ()
      ensures Valid() && goals == map[]
    {
      goals := map[];
    }

    method GetGoal(session: SessionId) returns (goal: Option<Goal>)
      ensures goal == Row(goals, session)
    {
      return if session in goals then Some(goals[session]) else None;
    }

    method ReplaceGoal(session: SessionId, goalId: GoalId, objective: string, status: Status,
        budget: Option<int>, now: int)
      returns (goal: Goal)
      requires Valid()
      modifies this
      ensures Valid() && goals == Apply(old(goals), Replace(session, goalId, objective, status, budget, now))
      ensures Some(goal) == Row(goals, session) && goal.goalId == goalId && goal.tokensUsed == 0
    {
      ghost var before := goals;
      var stored := StatusAfterBudgetLimit(status, 0, budget);
      goal := Goal(session, goalId, objective, stored, budget, 0, 0, now, now);
      goals := goals[session := goal];
      ApplyKeepsInv(before, Replace(session, goalId, objective, status, budget, now));
    }

    method InsertGoal(session: SessionId, goalId: GoalId, objective: string, status: Status,
        budget: Option<int>, now: int)
      returns (goal: Option<Goal>)
      requires Valid()
      modifies this
      ensures Valid() && goals == Apply(old(goals), Insert(session, goalId, objective, status, budget, now))
      ensures goal.Some? <==> session !in old(goals) || old(goals)[session].status.Complete?
      ensures goal.Some? ==> goal == Row(goals, session)
      ensures goal.None? ==> goals == old(goals)
    {
      ghost var before := goals;
      var stored := StatusAfterBudgetLimit(status, 0, budget);
      if session in goals && !goals[session].status.Complete? {
        assert goals[session := goals[session]] == goals;
        return None;
      }
      var created := Goal(session, goalId, objective, stored, budget, 0, 0, now, now);
      goals := goals[session := created];
      ApplyKeepsInv(before, Insert(session, goalId, objective, status, budget, now));
      return Some(created);
    }

    /** _status_after_budget_limit */
    static function StatusAfterBudgetLimit(status: Status, tokensUsed: int, budget: Option<int>): (r: Status)
      ensures r.Active? <==> status.Active? && !Exhausted(tokensUsed, budget)
      ensures r != status ==> status.Active? && r.BudgetLimited?
    {
      if status.Active? && budget.Some? && tokensUsed >= budget.value then BudgetLimited else status
    }

    /** The four UPDATE statements and the read of an empty update. */
    method UpdateGoal(session: SessionId, u: GoalUpdate, now: int) returns (goal: Option<Goal>)
      requires Valid()
      modifies this
      ensures Valid() && goals == Apply(old(goals), Update(session, u, now))
      ensures goal.Some? <==> session in old(goals) && Matches(old(goals)[session], u.expected)
      ensures goal.Some? ==> goal == Row(goals, session)
    {
      ghost var before := goals;
      ApplyKeepsInv(before, Update(session, u, now));
      if session !in goals || !(u.expected.None? || goals[session].goalId == u.expected.value) {
        assert PutRow(goals, session, Row(goals, session)) == goals;
        return None;
      }
      var row := goals[session];
      var objective := if u.objective.Some? then u.objective.value else row.objective;
      if u.status.Some? && u.budget.Set? {
        var status, budget := u.status.value, u.budget.budget;
        var stored :=
          if row.status.BudgetLimited? && (status.Paused? || status.Blocked?) then row.status
          else if status.Active? && budget.Some? && row.tokensUsed >= budget.value then BudgetLimited
          else status;
        row := row.(objective := objective, status := stored, budget := budget, updatedAt := now);
      } else if u.status.Some? {
        var status := u.status.value;
        var stored :=
          if row.status.BudgetLimited? && (status.Paused? || status.Blocked?) then row.status
          else if status.Active? && row.budget.Some? && row.tokensUsed >= row.budget.value then BudgetLimited
          else status;
        row := row.(objective := objective, status := stored, updatedAt := now);
      } else if u.budget.Set? {
        var budget := u.budget.budget;
        var stored :=
          if row.status.Active? && budget.Some? && row.tokensUsed >= budget.value then BudgetLimited else row.status;
        row := row.(objective := objective, budget := budget, status := stored, updatedAt := now);
      } else if u.objective.Some? {
        row := row.(objective := u.objective.value, updatedAt := now);
      }
      goals := goals[session := row];
      return Some(row);
    }

    /** pause_active_goal and usage_limit_active_goal. */
    method UpdateActiveGoalStatus(session: SessionId, status: Status, now: int) returns (goal: Option<Goal>)
      requires Valid() && (status.Paused? || status.UsageLimited?)
      modifies this
      ensures Valid() && goals == Apply(old(goals), Stop(session, status, now))
      ensures goal.Some? <==> session in old(goals) && StopReaches(old(goals)[session], status)
      ensures goal.Some? ==> goal == Row(goals, session) && goal.value.status == status
    {
      ghost var before := goals;
      ApplyKeepsInv(before, Stop(session, status, now));
      if session !in goals
         || !(goals[session].status.Active? || (status.UsageLimited? && goals[session].status.BudgetLimited?)) {
        assert PutRow(goals, session, Row(goals, session)) == goals;
        return None;
      }
      goals := goals[session := goals[session].(status := status, updatedAt := now)];
      return Some(goals[session]);
    }

    method DeleteGoal(session: SessionId) returns (goal: Option<Goal>)
      requires Valid()
      modifies this
      ensures Valid() && goals == Apply(old(goals), Delete(session))
      ensures goal == Row(old(goals), session) && Row(goals, session).None?
    {
      goal := if session in goals then Some(goals[session]) else None;
      goals := goals - {session};
    }

    /** account_usage; the outcome's goal is the row afterwards either way. */
    method AccountUsage(session: SessionId, timeDelta: int, tokenDelta: int, mode: Mode,
        expected: Option<GoalId>, now: int)
      returns (updated: bool, goal: Option<Goal>)
      requires Valid()
      modifies this
      ensures Valid() && goals == Apply(old(goals), Account(session, timeDelta, tokenDelta, mode, expected, now))
      ensures goal == Row(goals, session)
      ensures updated <==>
        && (timeDelta > 0 || tokenDelta > 0) && session in old(goals)
        && Admits(mode, old(goals)[session].status) && Matches(old(goals)[session], expected)
    {
      ghost var before := goals;
      ApplyKeepsInv(before, Account(session, timeDelta, tokenDelta, mode, expected, now));
      assert PutRow(goals, session, Row(goals, session)) == goals;
      var seconds, tokens := Max(timeDelta, 0), Max(tokenDelta, 0);
      if seconds == 0 && tokens == 0 {
        goal := GetGoal(session);
        return false, goal;
      }
      if session !in goals || !Admits(mode, goals[session].status)
         || (expected.Some? && goals[session].goalId != expected.value) {
        goal := GetGoal(session);
        return false, goal;
      }
      var row := goals[session];
      var mayTrip := if mode.ActiveOrStopped? then !row.status.Complete? else row.status.Active?;
      var status :=
        if mayTrip && row.budget.Some? && row.tokensUsed + tokens >= row.budget.value then BudgetLimited else row.status;
      row := row.(timeUsed := row.timeUsed + seconds);
      row := row.(tokensUsed := row.tokensUsed + tokens);
      row := row.(status := status, updatedAt := now);
      goals := goals[session := row];
      return true, Some(row);
    }
  }
}
