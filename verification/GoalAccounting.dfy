/** Usage conservation over whole runs: turns, tools and other callers of the store take
    their steps on one session's row in any order. */
module GoalAccounting {
  import opened Prelude
  import opened GoalStore
  import opened GoalRuntime

  /** What a finished turn should add to the goal it was bound to. */
  datatype Owed = Owed(goalId: GoalId, tokens: nat)

  /** Where a turn end stands between its store calls: `read` is the goal that was read
      before the charge, nothing if the read failed. */
  datatype Ending =
    | NotEnding
    | Charging(id: GoalId, seconds: nat, tokens: nat, read: Option<Goal>)
    | Stopping(id: GoalId)

  /** counter is the cumulative usage counter, issued the goal ids handed out so far. */
  datatype World = World(
    row: Option<Goal>, turn: Turn, ending: Ending, counter: int, owed: seq<Owed>, issued: set<GoalId>)

  datatype Event =
    | Start(readFails: bool, startClock: real)
    | Spend(tokens: nat)
    | Outside(op: Op)
    | CreateTool(op: Op)
    | UpdateTool(op: Op)
    | Finish(unread: bool, clock: real)
    | Charge(fails: bool, now: int)
    | StopTurn(error: bool, cancelled: bool, stopFails: bool, now: int)
    | Ask(askFails: bool)

  function IdsOf(op: Op): set<GoalId>
  {
    if op.Replace? || op.Insert? then {op.goalId} else {}
  }

  /** Every new goal gets a new id; only the runtime charges usage; the creating tool
      inserts and the updating tool updates; a turn end makes its calls one after another. */
  predicate Legal(w: World, e: Event)
  {
    match e
    case Outside(op) => !op.Account? && Callable(op) && IdsOf(op) !! w.issued
    case CreateTool(op) => op.Insert? && IdsOf(op) !! w.issued
    case UpdateTool(op) => op.Update?
    case Finish(_, _) => w.ending.NotEnding?
    case Charge(_, _) => w.ending.Charging?
    case StopTurn(_, _, _, _) => w.ending.Stopping?
    case _ => true
  }

  function Step(w: World, e: Event): World
  {
    match e
    case Start(readFails, clock) => w.(turn := StartTurn(w.turn, w.row, readFails, w.counter, clock))
    case Spend(tokens) => w.(counter := w.counter + tokens)
    case Outside(op) => w.(row := RowAfter(w.row, op), issued := w.issued + IdsOf(op))
    case CreateTool(op) =>
      var row := RowAfter(w.row, op);
      w.(row := row, issued := w.issued + IdsOf(op),
         turn := if op.Insert? && row != w.row then MarkCreated(w.turn, op.goalId) else w.turn)
    case UpdateTool(op) =>
      w.(row := RowAfter(w.row, op),
         turn := if op.Update? && w.row.Some? && Matches(w.row.value, op.update.expected) then ClearReported(w.turn) else w.turn)
    case Finish(unread, clock) =>
      if w.turn.goalId.None? then w.(turn := Ended(w.turn))
      else
        var id, tokens := w.turn.goalId.value, OwedTokens(w.turn, w.counter);
        w.(turn := Ended(w.turn), owed := w.owed + [Owed(id, tokens)],
           ending := Charging(id, OwedSeconds(w.turn, clock), tokens, if unread then None else w.row))
    case Charge(fails, now) =>
      if !w.ending.Charging? then w
      else
        w.(row := Charged(w.ending.read, w.row, w.ending.id, w.ending.seconds, w.ending.tokens, Faults(false, fails, false), now),
           ending := Stopping(w.ending.id))
    case StopTurn(error, cancelled, fails, now) =>
      if !w.ending.Stopping? then w
      else
        w.(row := Stopped(w.row, w.ending.id, error, cancelled, Faults(false, false, fails), now), ending := NotEnding)
    case Ask(askFails) => w.(turn := Reported(w.turn, NextPrompt(w.turn, w.row, askFails)))
  }

  /** Other callers and the two tools do to the row what their statement does to the store. */
  lemma RowIsTheStores(w: World, goals: Goals, op: Op)
    requires Row(goals, op.session) == w.row
    ensures Step(w, Outside(op)).row == Row(GoalStore.Apply(goals, op), op.session)
    ensures Step(w, CreateTool(op)).row == Row(GoalStore.Apply(goals, op), op.session)
    ensures Step(w, UpdateTool(op)).row == Row(GoalStore.Apply(goals, op), op.session)
  {
  }

  function Run(w: World, es: seq<Event>): World
    decreases es
  {
    if es == [] then w else Run(Step(w, es[0]), es[1..])
  }

  predicate LegalRun(w: World, es: seq<Event>)
    decreases es
  {
    es == [] || (Legal(w, es[0]) && LegalRun(Step(w, es[0]), es[1..]))
  }

  /** The store calls that charge a turn all succeed, and if another caller changed the
      goal's status between the read and the charge, the mode chosen before still fits. */
  predicate Lands(w: World, e: Event)
  {
    && (e.Finish? ==> !e.unread)
    && (e.Charge? && w.ending.Charging? ==>
          !e.fails && (Due(w) > 0 ==> Admits(ModeFor(w.ending.read.value.status), w.row.value.status)))
  }

  predicate AllLand(w: World, es: seq<Event>)
    decreases es
  {
    es == [] || (Lands(w, es[0]) && AllLand(Step(w, es[0]), es[1..]))
  }

  /** What the charge that is still to come would add to the row's goal. */
  function Due(w: World): (tokens: nat)
    ensures tokens > 0 ==> w.row.Some? && w.ending.Charging? && w.ending.read.Some?
  {
    if w.ending.Charging? && w.row.Some? && w.ending.read.Some?
       && w.ending.read.value.goalId == w.row.value.goalId == w.ending.id then w.ending.tokens
    else 0
  }

  function SumFor(owed: seq<Owed>, id: GoalId): nat
    decreases |owed|
  {
    if owed == [] then 0
    else SumFor(owed[..|owed| - 1], id) + (if owed[|owed| - 1].goalId == id then owed[|owed| - 1].tokens else 0)
  }

  function Total(owed: seq<Owed>): nat
    decreases |owed|
  {
    if owed == [] then 0 else Total(owed[..|owed| - 1]) + owed[|owed| - 1].tokens
  }

  lemma OweOne(owed: seq<Owed>, o: Owed)
    ensures Total(owed + [o]) == Total(owed) + o.tokens
    ensures forall id :: SumFor(owed + [o], id) == SumFor(owed, id) + (if o.goalId == id then o.tokens else 0)
  {
    assert (owed + [o])[..|owed + [o]| - 1] == owed;
  }

  lemma {:induction false} NothingOwed(owed: seq<Owed>, id: GoalId)
    requires forall i :: 0 <= i < |owed| ==> owed[i].goalId != id
    ensures SumFor(owed, id) == 0
    decreases |owed|
  {
    if owed != [] {
      NothingOwed(owed[..|owed| - 1], id);
    }
  }

  lemma {:induction false} PartOfTotal(owed: seq<Owed>, id: GoalId)
    ensures SumFor(owed, id) <= Total(owed)
    decreases |owed|
  {
    if owed != [] {
      PartOfTotal(owed[..|owed| - 1], id);
    }
  }

  /** A goal's usage when the books were opened. */
  function Opening(base: Option<Goal>, id: GoalId): int
  {
    if base.Some? && base.value.goalId == id then base.value.tokensUsed else 0
  }

  predicate Issued(w: World, base: Option<Goal>)
  {
    && (base.Some? ==> base.value.goalId in w.issued)
    && (w.row.Some? ==> w.row.value.goalId in w.issued)
    && (w.ending.Charging? ==> w.ending.id in w.issued)
    && forall i :: 0 <= i < |w.owed| ==> w.owed[i].goalId in w.issued
  }

  predicate TurnIssued(w: World)
  {
    w.turn.goalId.Some? ==> w.turn.goalId.value in w.issued
  }

  /** The row carries at most what is owed to it, and exactly that while all charges land,
      apart from the charge that is still to come. */
  predicate Books(w: World, base: Option<Goal>, exact: bool)
  {
    w.row.Some? ==>
      var due := Opening(base, w.row.value.goalId) + SumFor(w.owed, w.row.value.goalId);
      w.row.value.tokensUsed + Due(w) <= due && (exact ==> w.row.value.tokensUsed + Due(w) == due)
  }

  /** No token of the counter is owed twice: a running chargeable turn still holds what
      was spent since its baseline. */
  predicate Metered(w: World, start: int)
  {
    && start + Total(w.owed) <= w.counter
    && (w.turn.goalId.Some? && !w.turn.created ==> start + Total(w.owed) <= w.turn.baseline <= w.counter)
  }

  predicate Inv(w: World, base: Option<Goal>, start: int, exact: bool)
  {
    Issued(w, base) && TurnIssued(w) && Books(w, base, exact) && Metered(w, start)
  }

  /** Any statement but a charge keeps the goal and its usage, or leaves a new goal with
      none, or no goal. */
  lemma RowAfterKeepsUsage(row: Option<Goal>, op: Op)
    requires !op.Account?
    ensures var r := RowAfter(row, op);
            r.Some? ==>
              || (row.Some? && r.value.goalId == row.value.goalId && r.value.tokensUsed == row.value.tokensUsed)
              || (IdsOf(op) == {r.value.goalId} && r.value.tokensUsed == 0)
  {
  }

  lemma StatementKeepsBooks(w: World, op: Op, base: Option<Goal>, exact: bool)
    requires Issued(w, base) && Books(w, base, exact) && !op.Account? && IdsOf(op) !! w.issued
    ensures var v := w.(row := RowAfter(w.row, op), issued := w.issued + IdsOf(op));
            Issued(v, base) && Books(v, base, exact)
  {
    RowAfterKeepsUsage(w.row, op);
    var r := RowAfter(w.row, op);
    if r.Some? && IdsOf(op) == {r.value.goalId} {
      assert r.value.goalId in IdsOf(op);
      if r.value.goalId !in w.issued {
        NothingOwed(w.owed, r.value.goalId);
      }
    }
  }

  /** The turn end begins: what it owes is due at once, unless its goal is gone. */
  lemma FinishKeepsBooks(w: World, e: Event, base: Option<Goal>, exact: bool)
    requires Issued(w, base) && TurnIssued(w) && Books(w, base, exact) && e.Finish? && w.ending.NotEnding?
    requires exact ==> Lands(w, e)
    ensures Issued(Step(w, e), base) && Books(Step(w, e), base, exact)
  {
    if w.turn.goalId.Some? {
      OweOne(w.owed, Owed(w.turn.goalId.value, OwedTokens(w.turn, w.counter)));
    }
  }

  lemma ChargeKeepsBooks(w: World, e: Event, base: Option<Goal>, exact: bool)
    requires Issued(w, base) && Books(w, base, exact) && e.Charge? && w.ending.Charging?
    requires exact ==> Lands(w, e)
    ensures Issued(Step(w, e), base) && Books(Step(w, e), base, exact)
  {
    ChargeUsage(w, e.fails, e.now);
  }

  /** What the charge does to the row, in the terms of the books. */
  lemma ChargeUsage(w: World, fails: bool, now: int)
    requires w.ending.Charging?
    ensures var r := Step(w, Charge(fails, now)).row;
            && (r.Some? <==> w.row.Some?)
            && (r.Some? ==>
                  && r.value.goalId == w.row.value.goalId
                  && r.value.tokensUsed == w.row.value.tokensUsed +
                       (if Due(w) > 0 && !fails && Admits(ModeFor(w.ending.read.value.status), w.row.value.status)
                        then Due(w) else 0))
  {
  }

  lemma StopKeepsBooks(w: World, e: Event, base: Option<Goal>, exact: bool)
    requires Issued(w, base) && Books(w, base, exact) && e.StopTurn? && w.ending.Stopping?
    ensures Issued(Step(w, e), base) && Books(Step(w, e), base, exact)
  {
  }

  lemma StepKeepsInv(w: World, e: Event, base: Option<Goal>, start: int, exact: bool)
    requires Inv(w, base, start, exact) && Legal(w, e)
    requires exact ==> Lands(w, e)
    ensures Inv(Step(w, e), base, start, exact)
  {
    match e
    case Finish(_, _) =>
      FinishKeepsBooks(w, e, base, exact);
      FinishKeepsMeter(w, e, start);
    case Charge(_, _) => ChargeKeepsBooks(w, e, base, exact);
    case StopTurn(_, _, _, _) => StopKeepsBooks(w, e, base, exact);
    case Outside(op) => StatementKeepsBooks(w, op, base, exact);
    case CreateTool(op) => StatementKeepsBooks(w, op, base, exact);
    case UpdateTool(op) => StatementKeepsBooks(w, op, base, exact);
    case _ =>
  }

  lemma FinishKeepsMeter(w: World, e: Event, start: int)
    requires Metered(w, start) && e.Finish?
    ensures Metered(Step(w, e), start)
  {
    if w.turn.goalId.Some? {
      OweOne(w.owed, Owed(w.turn.goalId.value, OwedTokens(w.turn, w.counter)));
    }
  }

  lemma {:induction false} RunKeepsInv(w: World, es: seq<Event>, base: Option<Goal>, start: int, exact: bool)
    requires Inv(w, base, start, exact) && LegalRun(w, es)
    requires exact ==> AllLand(w, es)
    ensures Inv(Run(w, es), base, start, exact)
    decreases es
  {
    if es != [] {
      StepKeepsInv(w, es[0], base, start, exact);
      RunKeepsInv(Step(w, es[0]), es[1..], base, start, exact);
    }
  }

  /** A turn end without other callers in between. */
  function FinishTurn(w: World, error: bool, cancelled: bool, f: Faults, clock: real, now: int): World
  {
    var end := EndTurn(w.turn, w.row, w.counter, error, cancelled, f, clock, now);
    w.(turn := end.turn, row := end.row,
       owed := if w.turn.goalId.None? then w.owed
               else w.owed + [Owed(w.turn.goalId.value, OwedTokens(w.turn, w.counter))])
  }

  /** It is the three calls one after another, and its charge lands if no call fails. */
  lemma TurnEndIsThreeCalls(w: World, error: bool, cancelled: bool, f: Faults, clock: real, now: int)
    requires w.ending.NotEnding?
    ensures var finish, charge, stop := Finish(f.read, clock), Charge(f.account, now), StopTurn(error, cancelled, f.stop, now);
            var read := Step(w, finish);
            var charged := Step(read, charge);
            && Step(charged, stop) == FinishTurn(w, error, cancelled, f, clock, now)
            && (w.turn.goalId.Some? ==> Legal(w, finish) && Legal(read, charge) && Legal(charged, stop))
            && (!f.read && !f.account ==> Lands(w, finish) && Lands(read, charge) && Lands(charged, stop))
  {
    if w.turn.goalId.Some? && w.row.Some? {
      ModeAdmitsStatusRead(w.row.value.status);
    }
  }

  /** What a turn end does to the row, in the terms of the books. */
  lemma EndTurnUsage(t: Turn, row: Option<Goal>, tokens: int, error: bool, cancelled: bool, f: Faults,
      clock: real, now: int)
    requires t.goalId.Some?
    ensures var r := EndTurn(t, row, tokens, error, cancelled, f, clock, now).row;
            && (r.Some? <==> row.Some?)
            && (r.Some? ==>
                  && r.value.goalId == row.value.goalId
                  && r.value.tokensUsed == row.value.tokensUsed
                       + (if row.value.goalId == t.goalId.value && !f.read && !f.account then OwedTokens(t, tokens) else 0))
  {
    if row.Some? {
      ModeAdmitsStatusRead(row.value.status);
    }
  }

  /** A world between turns with nothing owed yet. */
  predicate Quiet(w: World)
  {
    w.turn.goalId.None? && w.ending.NotEnding? && w.owed == [] && (w.row.Some? ==> w.row.value.goalId in w.issued)
  }

  /** Over any run, whatever fails: a goal is never charged more than its turns owe it, and
      everything owed fits in the growth of the counter. */
  lemma NeverOvercharged(w: World, es: seq<Event>)
    requires Quiet(w) && LegalRun(w, es)
    ensures var v := Run(w, es);
            && Total(v.owed) <= v.counter - w.counter
            && (v.row.Some? ==>
                  && v.row.value.tokensUsed <= Opening(w.row, v.row.value.goalId) + SumFor(v.owed, v.row.value.goalId)
                  && v.row.value.tokensUsed - Opening(w.row, v.row.value.goalId) <= v.counter - w.counter)
  {
    RunKeepsInv(w, es, w.row, w.counter, false);
    var v := Run(w, es);
    if v.row.Some? {
      PartOfTotal(v.owed, v.row.value.goalId);
    }
  }

  /** If every charge lands, a goal's usage, with the charge that is still to come, is exactly
      what it began with plus what the turns bound to it owe; creating turns owe nothing. */
  lemma UsageIsConserved(w: World, es: seq<Event>)
    requires Quiet(w) && LegalRun(w, es) && AllLand(w, es)
    ensures var v := Run(w, es);
            v.row.Some? ==>
              v.row.value.tokensUsed + Due(v) == Opening(w.row, v.row.value.goalId) + SumFor(v.owed, v.row.value.goalId)
  {
    RunKeepsInv(w, es, w.row, w.counter, true);
  }

  /** What one turn owes: nothing if it created its goal, otherwise what the counter gained
      between its start and its end, charged to the goal that was bound at its start. */
  lemma TurnOwesItsGrowth(w: World, readFails: bool, startClock: real, spent: nat, end: Event)
    requires end.Finish?
    ensures var started := Step(w, Start(readFails, startClock));
            var v := Step(Step(started, Spend(spent)), end);
            v.owed == if !readFails && Bindable(w.row) then w.owed + [Owed(w.row.value.goalId, spent)] else w.owed
  {
  }

  /** The turn that creates a goal owes it nothing, whatever it was bound to before. */
  lemma CreatingTurnOwesNothing(w: World, readFails: bool, startClock: real, op: Op, spent: nat, end: Event)
    requires end.Finish? && op.Insert? && RowAfter(w.row, op) != w.row
    ensures var started := Step(Step(w, Start(readFails, startClock)), CreateTool(op));
            Step(Step(started, Spend(spent)), end).owed == w.owed + [Owed(op.goalId, 0)]
  {
  }
}
