/** Which rows an exact replacement leaves behind: koder_agent/core/session.py. */
module ReplacementRows {

  type Message = string
  type Timestamp = string

  /** One row of the messages table of a session, in id order. */
  datatype Row = Row(message: Message, createdAt: Timestamp)

  function Messages(rows: seq<Row>): (r: seq<Message>)
    ensures |r| == |rows|
  {
    seq(|rows|, i requires 0 <= i < |rows| => rows[i].message)
  }

  /** How often a message occurs. */
  function Count(items: seq<Message>, m: Message): nat
  {
    if items == [] then 0
    else Count(items[..|items| - 1], m) + if items[|items| - 1] == m then 1 else 0
  }

  /** The timestamps of a message, in row order. */
  function Stamps(rows: seq<Row>, m: Message): seq<Timestamp>
  {
    if rows == [] then []
    else Stamps(rows[..|rows| - 1], m)
         + if rows[|rows| - 1].message == m then [rows[|rows| - 1].createdAt] else []
  }

  /** The k-th occurrence of a message keeps the k-th timestamp it had before; `clock`
      is CURRENT_TIMESTAMP at the i-th insert. */
  function StampFor(before: seq<Row>, items: seq<Message>, clock: nat -> Timestamp, i: nat): Timestamp
    requires i < |items|
  {
    var k := Count(items[..i], items[i]);
    if k < |Stamps(before, items[i])| then Stamps(before, items[i])[k] else clock(i)
  }

  function Replacement(before: seq<Row>, items: seq<Message>, clock: nat -> Timestamp): seq<Row>
  {
    seq(|items|, i requires 0 <= i < |items| => Row(items[i], StampFor(before, items, clock, i)))
  }

  function Min(a: nat, b: nat): nat
  {
    if a < b then a else b
  }

  type Queues = map<Message, seq<Timestamp>>

  function Queue(queues: Queues, m: Message): seq<Timestamp>
  {
    if m in queues then queues[m] else []
  }

  /** What is still queued for a message once the items in `done` were inserted. */
  ghost predicate Waiting(queues: Queues, before: seq<Row>, done: seq<Message>)
  {
    forall m :: Queue(queues, m) == Stamps(before, m)[Min(Count(done, m), |Stamps(before, m)|)..]
  }

  method CollectTimestamps(before: seq<Row>) returns (queues: Queues)
    ensures Waiting(queues, before, [])
  {
    queues := map[];
    for i := 0 to |before|
      invariant forall m :: Queue(queues, m) == Stamps(before[..i], m)
    {
      var m := before[i].message;
      assert before[..i + 1][..i] == before[..i];
      queues := queues[m := Queue(queues, m) + [before[i].createdAt]];
    }
    assert before[..|before|] == before;
  }

  lemma PopTimestamp(queues: Queues, before: seq<Row>, items: seq<Message>, clock: nat -> Timestamp, i: nat)
    requires i < |items| && Waiting(queues, before, items[..i])
    ensures StampFor(before, items, clock, i)
            == if Queue(queues, items[i]) != [] then Queue(queues, items[i])[0] else clock(i)
    ensures Queue(queues, items[i]) == [] ==> Waiting(queues, before, items[..i + 1])
    ensures Queue(queues, items[i]) != [] ==>
      Waiting(queues[items[i] := Queue(queues, items[i])[1..]], before, items[..i + 1])
  {
    assert items[..i + 1][..i] == items[..i];
  }

  /** The insertion loop: timestamps wait in one FIFO queue per message. */
  method InsertReplacement(before: seq<Row>, items: seq<Message>, clock: nat -> Timestamp)
    returns (rows: seq<Row>)
    ensures rows == Replacement(before, items, clock)
  {
    var preserved := CollectTimestamps(before);
    rows := [];
    assert items[..0] == [];
    for i := 0 to |items|
      invariant Inserted(rows, before, items, clock, i)
      invariant Waiting(preserved, before, items[..i])
    {
      var createdAt;
      createdAt, preserved := NextTimestamp(preserved, before, items, clock, i);
      InsertOne(rows, before, items, clock, i, createdAt);
      rows := rows + [Row(items[i], createdAt)];
    }
    assert rows == rows[..|items|];
  }

  /** The first `n` rows are in place. */
  ghost predicate Inserted(rows: seq<Row>, before: seq<Row>, items: seq<Message>, clock: nat -> Timestamp, n: nat)
  {
    n <= |items| && rows == Replacement(before, items, clock)[..n]
  }

  lemma InsertOne(rows: seq<Row>, before: seq<Row>, items: seq<Message>, clock: nat -> Timestamp, i: nat, t: Timestamp)
    requires i < |items| && Inserted(rows, before, items, clock, i) && t == StampFor(before, items, clock, i)
    ensures Inserted(rows + [Row(items[i], t)], before, items, clock, i + 1)
  {
  }

  /** popleft if the message's queue has something left, else the current time. */
  method NextTimestamp(queues: Queues, ghost before: seq<Row>, items: seq<Message>, clock: nat -> Timestamp, i: nat)
    returns (createdAt: Timestamp, rest: Queues)
    requires i < |items| && Waiting(queues, before, items[..i])
    ensures createdAt == StampFor(before, items, clock, i)
    ensures Waiting(rest, before, items[..i + 1])
  {
    PopTimestamp(queues, before, items, clock, i);
    var timestamps := Queue(queues, items[i]);
    if timestamps != [] {
      return timestamps[0], queues[items[i] := timestamps[1..]];
    }
    return clock(i), queues;
  }

  lemma ReplacementPrefix(before: seq<Row>, items: seq<Message>, clock: nat -> Timestamp, n: nat)
    requires n <= |items|
    ensures Replacement(before, items, clock)[..n] == Replacement(before, items[..n], clock)
  {
    forall i | 0 <= i < n
      ensures StampFor(before, items, clock, i) == StampFor(before, items[..n], clock, i)
    {
      assert items[..n][..i] == items[..i];
    }
  }

  /** The rows are the new items in order, and each distinct message keeps its old
      timestamps, in the old order, on its first min(old count, new count) rows. */
  lemma {:induction false} TimestampsSurvive(before: seq<Row>, items: seq<Message>, clock: nat -> Timestamp, m: Message)
    ensures Messages(Replacement(before, items, clock)) == items
    ensures var after := Stamps(Replacement(before, items, clock), m);
            var n := Min(|Stamps(before, m)|, Count(items, m));
            |after| == Count(items, m) && after[..n] == Stamps(before, m)[..n]
  {
    if items != [] {
      var n := |items| - 1;
      TimestampsSurvive(before, items[..n], clock, m);
      ReplacementPrefix(before, items, clock, n);
    }
  }

  lemma {:induction false} StampsCount(rows: seq<Row>, m: Message)
    ensures |Stamps(rows, m)| == Count(Messages(rows), m)
  {
    if rows != [] {
      StampsCount(rows[..|rows| - 1], m);
      assert Messages(rows)[..|rows| - 1] == Messages(rows[..|rows| - 1]);
    }
  }

  /** A row's own timestamp is the one its occurrence number selects. */
  lemma {:induction false} OwnStamp(rows: seq<Row>, i: nat)
    requires i < |rows|
    ensures var m := rows[i].message;
            var k := Count(Messages(rows)[..i], m);
            k < |Stamps(rows, m)| && Stamps(rows, m)[k] == rows[i].createdAt
  {
    var n := |rows| - 1;
    assert Messages(rows)[..i] == Messages(rows[..n])[..i];
    if i == n {
      StampsCount(rows[..n], rows[i].message);
      assert Messages(rows)[..n] == Messages(rows[..n]);
    } else {
      OwnStamp(rows[..n], i);
    }
  }

  /** Replacing a history by its own messages changes nothing, timestamps included. */
  lemma ReplacingByItselfIsIdentity(rows: seq<Row>, clock: nat -> Timestamp)
    ensures Replacement(rows, Messages(rows), clock) == rows
  {
    forall i | 0 <= i < |rows|
      ensures Replacement(rows, Messages(rows), clock)[i] == rows[i]
    {
      OwnStamp(rows, i);
    }
  }
}

/** The race between cancellation and commit. `replace_items` runs the transaction on a
    worker thread while its coroutine may be cancelled any number of times; a
    coordinator decides under a lock which of the two wins. Worker, cancellations,
    other writers and the awaiting coroutine interleave freely; an event that is not
    enabled changes nothing.
 */
module SessionReplace {
  import opened Prelude
  import opened ReplacementRows

  /** _ReplacementCoordinator; each method body runs under its lock. */
  class ReplacementCoordinator {
    var cancellationRequested: bool
    var commitStarted: bool

    /** At most one side has won. */
    predicate Valid()
      reads this
    {
      !(cancellationRequested && commitStarted)
    }

    constructor ()
      ensures Valid() && Flags() == (false, false)
    {
      cancellationRequested, commitStarted := false, false;
    }

    function Flags(): (bool, bool)
      reads this
    {
      (cancellationRequested, commitStarted)
    }

    method RequestCancellation() returns (accepted: bool)
      requires Valid()
      modifies this
      ensures Valid() && (accepted, Flags()) == RequestEffect(old(Flags()))
    {
      if commitStarted {
        return false;
      }
      cancellationRequested := true;
      return true;
    }

    method RaiseIfCancellationRequested() returns (raised: bool)
      ensures raised == CheckEffect(Flags())
    {
      raised := cancellationRequested;
    }

    method BeginCommit() returns (raised: bool)
      requires Valid()
      modifies this
      ensures Valid() && (raised, Flags()) == ClaimEffect(old(Flags()))
    {
      if cancellationRequested {
        return true;
      }
      commitStarted := true;
      return false;
    }
  }

  /** The flags are (cancellation requested, commit started). */
  predicate CheckEffect(flags: (bool, bool))
  {
    flags.0
  }

  function RequestEffect(flags: (bool, bool)): (bool, (bool, bool))
  {
    if flags.1 then (false, flags) else (true, (true, flags.1))
  }

  function ClaimEffect(flags: (bool, bool)): (bool, (bool, bool))
  {
    if flags.0 then (true, flags) else (false, (flags.0, true))
  }

  datatype Outcome = Cancelled | Committed | Raised

  /** Where the worker stands. The three cancellation checks separate `Opened`,
      `Deleted` and `Inserted` from what follows them. */
  datatype Worker =
    | Fresh
    | Opened
    | Admitted
    | Deleted
    | Rechecked
    | Inserted
    | Finished
    | Claimed
    | RollingBack(cause: Outcome)
    | Done(outcome: Outcome)

  datatype Caller = Awaiting | Returned | CancelRaised | ErrorRaised

  /** A committed change of the history. */
  datatype DbWrite = Other(rows: seq<Row>) | Replaced(rows: seq<Row>)

  datatype World = World(
    items: seq<Message>, clock: nat -> Timestamp, origin: seq<Row>,
    flags: (bool, bool), accepted: nat, worker: Worker, caller: Caller,
    committed: seq<Row>, draft: Option<seq<Row>>, base: seq<Row>, log: seq<DbWrite>, evidenceCleared: bool)

  datatype Event =
    | Open(ok: bool)
    | Check
    | Begin
    | Insert
    | Claim
    | Commit
    | Fail
    | Rollback(helperOk: bool, forcedOk: bool)
    | Cancel
    | Resume
    | OtherWrite(rows: seq<Row>)

  ghost function Step(w: World, e: Event): World
  {
    match e
    case Open(ok) =>
      if !w.worker.Fresh? then w
      else w.(worker := if ok then Opened else Done(Raised))
    case Check =>
      if !(w.worker.Opened? || w.worker.Deleted? || w.worker.Inserted?) then w
      else if CheckEffect(w.flags) then w.(worker := RollingBack(Cancelled))
      else w.(worker := if w.worker.Opened? then Admitted else if w.worker.Deleted? then Rechecked else Finished)
    case Begin =>
      // BEGIN IMMEDIATE, the read of the old rows and their deletion.
      if !w.worker.Admitted? || w.draft.Some? then w
      else w.(worker := Deleted, draft := Some([]), base := w.committed)
    case Insert =>
      if !w.worker.Rechecked? then w
      else w.(worker := Inserted, draft := Some(Replacement(w.base, w.items, w.clock)))
    case Claim =>
      if !w.worker.Finished? then w
      else
        var (raised, flags) := ClaimEffect(w.flags);
        if raised then w.(worker := RollingBack(Cancelled)) else w.(flags := flags, worker := Claimed)
    case Commit =>
      if !w.worker.Claimed? || w.draft.None? then w
      else
        w.(worker := Done(Committed), committed := w.draft.value, log := w.log + [Replaced(w.draft.value)], draft := None)
    case Fail =>
      // Any statement inside the try block may raise, the commit itself included.
      if w.worker.Opened? || w.worker.Admitted? || InTransaction(w.worker)
      then w.(worker := RollingBack(Raised)) else w
    case Rollback(helperOk, forcedOk) =>
      // A failing rollback helper is followed by a direct rollback and its error raised.
      if !w.worker.RollingBack? then w
      else if helperOk then w.(worker := Done(w.worker.cause), draft := None)
      else if forcedOk then w.(worker := Done(Raised), draft := None)
      else w.(worker := Done(Raised))
    case Cancel =>
      if !w.caller.Awaiting? then w
      else
        var (accepted, flags) := RequestEffect(w.flags);
        w.(flags := flags, accepted := w.accepted + if accepted then 1 else 0)
    case Resume =>
      if !w.caller.Awaiting? || !w.worker.Done? then w
      else
        (match w.worker.outcome
         case Cancelled => w.(caller := CancelRaised)
         case Committed => w.(caller := Returned, evidenceCleared := true)
         case Raised => w.(caller := ErrorRaised))
    case OtherWrite(rows) =>
      // The open write transaction excludes other writers.
      if w.draft.Some? then w else w.(committed := rows, log := w.log + [Other(rows)])
  }

  ghost function Run(w: World, es: seq<Event>): World
    decreases es
  {
    if es == [] then w else Run(Step(w, es[0]), es[1..])
  }

  ghost predicate Initial(w: World)
  {
    && w.flags == (false, false) && w.accepted == 0 && w.worker == Fresh && w.caller == Awaiting
    && w.draft == None && w.log == [] && w.committed == w.origin && !w.evidenceCleared
  }

  // -------------------------------------------------------------- invariant

  /** The history after the first `k` committed changes. */
  ghost function HistoryAt(w: World, k: nat): seq<Row>
    requires k <= |w.log|
  {
    if k == 0 then w.origin else w.log[k - 1].rows
  }

  predicate InTransaction(worker: Worker)
  {
    worker.Deleted? || worker.Rechecked? || worker.Inserted? || worker.Finished? || worker.Claimed?
  }

  /** The flags, the worker, the caller and the draft agree. */
  ghost predicate ControlInv(w: World)
  {
    && !(w.flags.0 && w.flags.1)
    && (w.accepted > 0 <==> w.flags.0)
    && (InTransaction(w.worker) ==> w.draft.Some? && w.base == w.committed)
    && (w.worker.Inserted? || w.worker.Finished? || w.worker.Claimed? ==>
          w.draft == Some(Replacement(w.committed, w.items, w.clock)))
    && (w.worker.Fresh? || w.worker.Opened? || w.worker.Admitted? ==> w.draft.None?)
    && (w.worker.Claimed? ==> w.flags.1)
    && (w.worker == RollingBack(Cancelled) || w.worker == Done(Cancelled) ==> w.flags.0)
    && w.worker != RollingBack(Committed)
    && (w.worker == Done(Committed) ==> w.flags.1 && w.draft.None?)
    && (w.flags.1 ==> w.worker.Claimed? || w.worker == RollingBack(Raised) || w.worker.Done?)
  }

  ghost predicate CallerInv(w: World)
  {
    && (!w.caller.Awaiting? ==> w.worker.Done?)
    && (w.caller.CancelRaised? ==> w.worker == Done(Cancelled))
    && (w.caller.Returned? ==> w.worker == Done(Committed))
    && (w.caller.ErrorRaised? ==> w.worker == Done(Raised))
    && (w.evidenceCleared <==> w.caller.Returned?)
  }

  ghost predicate Published(w: World)
  {
    exists k :: 0 <= k < |w.log| && w.log[k].Replaced?
  }

  /** The log explains the history, and has at most one replacement, made by a commit. */
  ghost predicate LogInv(w: World)
  {
    && w.committed == HistoryAt(w, |w.log|)
    && (w.worker == Done(Committed) <==> Published(w))
    && (forall j, k :: 0 <= j < k < |w.log| ==> !(w.log[j].Replaced? && w.log[k].Replaced?))
    && (forall k :: 0 <= k < |w.log| && w.log[k].Replaced? ==>
          w.log[k].rows == Replacement(HistoryAt(w, k), w.items, w.clock))
  }

  ghost predicate Inv(w: World)
  {
    ControlInv(w) && CallerInv(w) && LogInv(w)
  }

  lemma StepControl(w: World, e: Event)
    requires ControlInv(w)
    ensures ControlInv(Step(w, e))
  {
  }

  lemma StepCaller(w: World, e: Event)
    requires CallerInv(w)
    ensures CallerInv(Step(w, e))
  {
  }

  /** Which events write the history, and what. */
  lemma StepLog(w: World, e: Event)
    requires ControlInv(w)
    ensures var v := Step(w, e);
            && v.origin == w.origin && v.items == w.items && v.clock == w.clock
            && ((v.log == w.log && v.committed == w.committed && (v.worker == Done(Committed) <==> w.worker == Done(Committed)))
                || (w.worker.Claimed? && v.worker == Done(Committed)
                    && v.committed == Replacement(w.committed, w.items, w.clock) && v.log == w.log + [Replaced(v.committed)])
                || (v.worker == w.worker && v.log == w.log + [Other(v.committed)]))
  {
  }

  lemma HistoryStays(w: World, v: World, k: nat)
    requires w.log <= v.log && v.origin == w.origin && k <= |w.log|
    ensures HistoryAt(v, k) == HistoryAt(w, k)
  {
  }

  lemma PublishedGrows(w: World, v: World, x: DbWrite)
    requires v.log == w.log + [x]
    ensures Published(v) <==> Published(w) || x.Replaced?
  {
    if Published(w) {
      var k :| 0 <= k < |w.log| && w.log[k].Replaced?;
      assert v.log[k].Replaced?;
    }
    if x.Replaced? {
      assert v.log[|w.log|].Replaced?;
    }
  }

  lemma LogGrows(w: World, v: World, x: DbWrite)
    requires LogInv(w) && v.log == w.log + [x]
    requires v.origin == w.origin && v.items == w.items && v.clock == w.clock && v.committed == x.rows
    requires x.Replaced? ==> !Published(w) && x.rows == Replacement(w.committed, w.items, w.clock)
    requires v.worker == Done(Committed) <==> w.worker == Done(Committed) || x.Replaced?
    ensures LogInv(v)
  {
    PublishedGrows(w, v, x);
    forall k | 0 <= k < |v.log| && v.log[k].Replaced?
      ensures v.log[k].rows == Replacement(HistoryAt(v, k), v.items, v.clock)
    {
      HistoryStays(w, v, k);
    }
  }

  lemma StepInv(w: World, e: Event)
    requires Inv(w)
    ensures Inv(Step(w, e))
  {
    StepControl(w, e);
    StepCaller(w, e);
    StepLog(w, e);
    var v := Step(w, e);
    if v.log == w.log {
      forall k | 0 <= k <= |w.log| ensures HistoryAt(v, k) == HistoryAt(w, k) {
      }
    } else {
      LogGrows(w, v, v.log[|w.log|]);
    }
  }

  lemma {:induction false} RunInv(w: World, es: seq<Event>)
    requires Inv(w)
    ensures Inv(Run(w, es))
    decreases es
  {
    if es != [] {
      StepInv(w, es[0]);
      RunInv(Step(w, es[0]), es[1..]);
    }
  }

  // --------------------------------------------------------------- theorems

  lemma Reached(w: World, es: seq<Event>)
    requires Initial(w)
    ensures Inv(Run(w, es))
  {
    RunInv(w, es);
  }

  /** What the caller is told is what happened: it returns exactly if the replacement
      was committed, and then the read evidence is cleared; if it is cancelled or sees
      an error, this operation changed nothing and the evidence stays. */
  lemma VerdictMatchesHistory(w: World, es: seq<Event>)
    requires Initial(w)
    ensures var w' := Run(w, es);
            && (w'.caller.Returned? ==> Published(w') && w'.evidenceCleared)
            && (w'.caller.CancelRaised? || w'.caller.ErrorRaised? ==> !Published(w') && !w'.evidenceCleared)
            && (w'.worker.Done? ==> (Published(w') <==> w'.worker.outcome == Committed))
            && (w'.caller.CancelRaised? ==> w'.accepted > 0)
  {
    Reached(w, es);
  }

  /** A published replacement happens once and replaces the whole history that was
      current at that moment. */
  lemma PublishedOnceAndWhole(w: World, es: seq<Event>, k: nat)
    requires Initial(w) && k < |Run(w, es).log| && Run(w, es).log[k].Replaced?
    ensures var w' := Run(w, es);
            && w'.log[k].rows == Replacement(HistoryAt(w', k), w'.items, w'.clock)
            && Messages(w'.log[k].rows) == w'.items
            && forall j :: 0 <= j < |w'.log| && w'.log[j].Replaced? ==> j == k
  {
    Reached(w, es);
    var w' := Run(w, es);
    TimestampsSurvive(HistoryAt(w', k), w'.items, w'.clock, "");
  }

  /** A reader sees the history as some committed change left it, never the emptied or
      partly filled draft: what is visible only changes together with the log. */
  lemma ReadersSeeCommittedHistories(w: World, es: seq<Event>, e: Event)
    requires Initial(w)
    ensures var w' := Run(w, es);
            var next := Step(w', e);
            && w'.committed == HistoryAt(w', |w'.log|)
            && (next.committed == w'.committed
                || next.committed == Replacement(w'.committed, w'.items, w'.clock)
                || e == OtherWrite(next.committed))
  {
    Reached(w, es);
  }

  lemma {:induction false} AcceptedStays(w: World, es: seq<Event>)
    ensures Run(w, es).accepted >= w.accepted
    decreases es
  {
    if es != [] {
      AcceptedStays(Step(w, es[0]), es[1..]);
    }
  }

  lemma {:induction false} RunSplit(w: World, xs: seq<Event>, ys: seq<Event>)
    ensures Run(w, xs + ys) == Run(Run(w, xs), ys)
    decreases xs
  {
    if xs == [] {
      assert [] + ys == ys;
    } else {
      assert (xs + ys)[1..] == xs[1..] + ys;
      RunSplit(Step(w, xs[0]), xs[1..], ys);
    }
  }

  /** Once a cancellation request was accepted, the replacement can never be committed;
      once the worker claimed the commit, no later request is accepted. */
  lemma AcceptedCancellationRulesOutCommit(w: World, before: seq<Event>, after: seq<Event>)
    requires Initial(w) && Run(w, before).accepted > 0
    ensures !Published(Run(w, before + after)) && Run(w, before + after).worker != Done(Committed)
  {
    RunSplit(w, before, after);
    AcceptedStays(Run(w, before), after);
    Reached(w, before + after);
  }

  lemma {:induction false} ClaimStays(w: World, es: seq<Event>)
    requires Inv(w) && w.flags.1
    ensures Run(w, es).flags.1 && Run(w, es).accepted == w.accepted
    decreases es
  {
    if es != [] {
      StepInv(w, es[0]);
      ClaimStays(Step(w, es[0]), es[1..]);
    }
  }

  lemma ClaimRefusesCancellation(w: World, before: seq<Event>, after: seq<Event>)
    requires Initial(w) && Run(w, before).flags.1
    ensures Run(w, before + after).accepted == 0
  {
    RunSplit(w, before, after);
    Reached(w, before);
    ClaimStays(Run(w, before), after);
  }

  // ---------------------------------------------------------------- progress

  /** The worker's own events, with helpers that work, and the caller's return. */
  const FINISH := [Open(true), Check, Begin, Check, Insert, Check, Claim, Commit, Rollback(true, true), Resume]

  /** How the worker ends from here, if nothing fails and nobody else steps in. */
  function Verdict(w: World): Outcome
    requires !w.worker.Done?
  {
    if w.worker.RollingBack? then w.worker.cause
    else if w.worker.Claimed? || w.accepted == 0 then Committed
    else Cancelled
  }

  /** The caller is told that verdict, and the history is as it says. */
  ghost predicate EndsAs(w: World, end: World)
    requires !w.worker.Done?
  {
    && end.worker == Done(Verdict(w))
    && match Verdict(w)
       case Committed =>
         end.committed == Replacement(w.committed, w.items, w.clock) && end.caller.Returned? && end.evidenceCleared
       case Cancelled => end.committed == w.committed && end.log == w.log && end.caller.CancelRaised?
       case Raised => end.committed == w.committed && end.log == w.log && end.caller.ErrorRaised?
  }

  /** From every reachable state in which the worker is still at work, its own events lead to
      an end, and the caller to an answer: a commit of the whole replacement exactly if no
      cancellation was accepted before its claim and nothing failed before, and otherwise
      the history as it is. */
  lemma WorkerFinishes(w: World, before: seq<Event>)
    requires Initial(w) && !Run(w, before).worker.Done?
    ensures var v := Run(w, before);
            var end := Run(v, FINISH);
            EndsAs(v, end) && (Verdict(v).Committed? ==> Messages(end.committed) == v.items)
  {
    Reached(w, before);
    var v := Run(w, before);
    RunFinish(v);
    Finishes(v);
    if Verdict(v).Committed? {
      TimestampsSurvive(v.committed, v.items, v.clock, "");
    }
  }

  ghost function Opening(w: World): World
  {
    Step(Step(Step(w, Open(true)), Check), Begin)
  }

  ghost function Filling(w: World): World
  {
    Step(Step(Step(w, Check), Insert), Check)
  }

  ghost function Ending(w: World): World
  {
    Step(Step(Step(Step(w, Claim), Commit), Rollback(true, true)), Resume)
  }

  lemma RunFinish(w: World)
    ensures Run(w, FINISH) == Ending(Filling(Opening(w)))
  {
    assert FINISH == [Open(true), Check, Begin] + ([Check, Insert, Check] + [Claim, Commit, Rollback(true, true), Resume]);
    RunSplit(w, [Open(true), Check, Begin], [Check, Insert, Check] + [Claim, Commit, Rollback(true, true), Resume]);
    RunSplit(Opening(w), [Check, Insert, Check], [Claim, Commit, Rollback(true, true), Resume]);
    RunThree(w, Open(true), Check, Begin);
    RunThree(Opening(w), Check, Insert, Check);
    RunThree(Filling(Opening(w)), Claim, Commit, Rollback(true, true));
    assert [Claim, Commit, Rollback(true, true), Resume] == [Claim, Commit, Rollback(true, true)] + [Resume];
    RunSplit(Filling(Opening(w)), [Claim, Commit, Rollback(true, true)], [Resume]);
    RunOne(Step(Step(Step(Filling(Opening(w)), Claim), Commit), Rollback(true, true)), Resume);
  }

  lemma RunOne(w: World, e: Event)
    ensures Run(w, [e]) == Step(w, e)
  {
    assert [e][1..] == [];
  }

  lemma RunThree(w: World, a: Event, b: Event, c: Event)
    ensures Run(w, [a, b, c]) == Step(Step(Step(w, a), b), c)
  {
    assert [a, b, c][1..] == [b, c] && [b, c][1..] == [c];
    RunOne(Step(Step(w, a), b), c);
  }

  /** Where the worker stands after each stretch. */
  lemma OpeningMoves(w: World)
    requires Inv(w) && !w.worker.Done?
    ensures var v := Opening(w);
            && Inv(v) && v.items == w.items && v.clock == w.clock && v.flags == w.flags && v.accepted == w.accepted
            && v.committed == w.committed && v.log == w.log && v.caller == w.caller
            && v.worker == match w.worker
                 case Fresh => if w.flags.0 then RollingBack(Cancelled) else Deleted
                 case Opened => if w.flags.0 then RollingBack(Cancelled) else Deleted
                 case Admitted => Deleted
                 case Deleted => if w.flags.0 then RollingBack(Cancelled) else Rechecked
                 case Inserted => if w.flags.0 then RollingBack(Cancelled) else Finished
                 case _ => w.worker
  {
    StepInv(w, Open(true));
    StepInv(Step(w, Open(true)), Check);
    StepInv(Step(Step(w, Open(true)), Check), Begin);
  }

  lemma FillingMoves(w: World)
    requires Inv(w) && !w.worker.Done? && !w.worker.Fresh? && !w.worker.Opened? && !w.worker.Admitted?
    ensures var v := Filling(w);
            && Inv(v) && v.items == w.items && v.clock == w.clock && v.flags == w.flags && v.accepted == w.accepted
            && v.committed == w.committed && v.log == w.log && v.caller == w.caller
            && v.worker == match w.worker
                 case Deleted => if w.flags.0 then RollingBack(Cancelled) else Finished
                 case Rechecked => if w.flags.0 then RollingBack(Cancelled) else Finished
                 case Inserted => if w.flags.0 then RollingBack(Cancelled) else Finished
                 case _ => w.worker
  {
    StepInv(w, Check);
    StepInv(Step(w, Check), Insert);
    StepInv(Step(Step(w, Check), Insert), Check);
  }

  lemma EndingMoves(w: World)
    requires Inv(w) && (w.worker.Finished? || w.worker.Claimed? || w.worker.RollingBack?)
    ensures EndsAs(w, Ending(w))
  {
  }

  lemma Finishes(w: World)
    requires Inv(w) && !w.worker.Done?
    ensures EndsAs(w, Ending(Filling(Opening(w))))
  {
    OpeningMoves(w);
    FillingMoves(Opening(w));
    EndingMoves(Filling(Opening(w)));
  }

  /** A failure anywhere from the opened connection to the commit leads to a rollback that
      ends in an error, and a commit that won or a rollback that runs is not touched by one. */
  lemma FailureRollsBack(w: World)
    ensures var v := Step(w, Fail);
            if w.worker.Fresh? || w.worker.RollingBack? || w.worker.Done? then v == w
            else v.worker == RollingBack(Raised) && v.draft == w.draft && v.committed == w.committed && v.log == w.log
  {
  }

  /** A connection that cannot be opened ends the worker with an error. */
  lemma UnopenedEndsWithError(w: World)
    requires w.worker.Fresh?
    ensures Step(w, Open(false)).worker == Done(Raised) && Step(w, Open(true)).worker == Opened
  {
  }

  /** A cancellation is accepted, and counted, exactly while the caller waits and the commit
      is not claimed. */
  lemma CancelAcceptedIff(w: World)
    ensures Step(w, Cancel).accepted == w.accepted + 1 <==> w.caller.Awaiting? && !w.flags.1
    ensures w.caller.Awaiting? && !w.flags.1 ==> Step(w, Cancel).flags.0
    ensures !(w.caller.Awaiting? && !w.flags.1) ==> Step(w, Cancel) == w
  {
  }

  /** A rollback ends the worker with its cause, or with an error if the helper failed; the
      transaction is over exactly if the helper or the direct rollback worked, and other
      writers can go on then. */
  lemma RollbackEnds(w: World, helperOk: bool, forcedOk: bool, rows: seq<Row>)
    requires w.worker.RollingBack?
    ensures var v := Step(w, Rollback(helperOk, forcedOk));
            && v.worker == Done(if helperOk then w.worker.cause else Raised)
            && v.draft == (if helperOk || forcedOk then None else w.draft)
            && v.committed == w.committed && v.log == w.log
            && (helperOk || forcedOk ==> Step(v, OtherWrite(rows)).committed == rows)
  {
  }

  /** A worker at its claim goes on to commit exactly if no cancellation was accepted before. */
  lemma ClaimCommitsIff(w: World, before: seq<Event>)
    requires Initial(w) && Run(w, before).worker.Finished?
    ensures var v := Run(w, before);
            Step(Step(v, Claim), Commit).worker == Done(Committed) <==> v.accepted == 0
  {
    Reached(w, before);
  }

  /** After the claim only a failure can keep it from committing: cancellations, other
      writers and waiting cannot. */
  lemma {:induction false} ClaimedCommits(w: World, es: seq<Event>)
    requires w.worker.Claimed? && w.draft.Some? && Fail !in es && Commit in es
    ensures Run(w, es).worker == Done(Committed)
    decreases es
  {
    assert es[0] != Fail && (es[0] == Commit || Commit in es[1..]);
    var next := Step(w, es[0]);
    if es[0] == Commit {
      CommittedStays(next, es[1..]);
    } else {
      assert next.worker.Claimed? && next.draft.Some?;
      ClaimedCommits(next, es[1..]);
    }
  }

  lemma {:induction false} CommittedStays(w: World, es: seq<Event>)
    requires w.worker == Done(Committed)
    ensures Run(w, es).worker == Done(Committed)
    decreases es
  {
    if es != [] {
      CommittedStays(Step(w, es[0]), es[1..]);
    }
  }
}
