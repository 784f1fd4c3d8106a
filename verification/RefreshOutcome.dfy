/** What the caller of a refresh gets: the credentials granted, those found in the store, or
    nothing. */
module RefreshOutcome {
  import opened Prelude
  import opened TokenStore
  import opened TokenReplies
  import opened RefreshProtocol
  import opened RefreshRuns
  import P = RefreshProtocol

  // ------------------------------------------------ an outcome reaches the caller

  /** The job is over with this outcome, and its caller, if it has returned, has it. */
  predicate Settled(w: World, p: Pid, outcome: Option<Tokens>)
  {
    && p in w.jobs && w.jobs[p].phase in {Releasing(outcome), Finished(outcome)}
    && (w.jobs[p].caller.Resumed? ==> w.jobs[p].caller.outcome == outcome)
  }

  lemma OwnEventSettled(w: World, e: Event, p: Pid, outcome: Option<Tokens>)
    requires Settled(w, p, outcome) && (e == Release(p) || e == Resume(p) || e == Cancel(p))
    ensures Settled(P.Step(w, e), p, outcome)
  {
  }

  lemma OtherEventSettled(w: World, e: Event, p: Pid, outcome: Option<Tokens>)
    requires Settled(w, p, outcome) && !(e == Release(p) || e == Resume(p) || e == Cancel(p))
    ensures Settled(P.Step(w, e), p, outcome)
  {
    if Enabled(w, e) && !e.Outside? && !e.Tick? {
      StepMoves(w, e);
    }
  }

  /** Whatever follows, the outcome stays, and it is all that the caller can be given. */
  lemma {:induction false} OutcomeIsHandedOn(w: World, es: seq<Event>, p: Pid, outcome: Option<Tokens>)
    requires Settled(w, p, outcome)
    ensures Settled(P.Run(w, es), p, outcome)
    decreases es
  {
    if es != [] {
      if es[0] == Release(p) || es[0] == Resume(p) || es[0] == Cancel(p) {
        OwnEventSettled(w, es[0], p, outcome);
      } else {
        OtherEventSettled(w, es[0], p, outcome);
      }
      OutcomeIsHandedOn(P.Step(w, es[0]), es[1..], p, outcome);
    }
  }

  /** After the lease is released a caller that still waits gets it. */
  lemma WaitingCallerGetsIt(w: World, p: Pid, outcome: Option<Tokens>)
    requires In(w, p, Finished(outcome)) && w.jobs[p].caller.Waiting?
    ensures P.Step(w, Resume(p)).jobs[p].caller == Resumed(outcome)
  {
  }

  // ------------------------------------------------------------- up to the lease

  /** A job that starts under a valid identifier goes to the lease, and makes an attempt as long
      as it is neither cancelled nor late. */
  lemma StartsTrying(w: World, p: Pid, tokens: Tokens)
    requires p !in w.jobs && tokens.provider == w.provider && ValidProvider(w.provider)
    ensures var v := P.Step(P.Step(w, Spawn(p, tokens)), Begin(p, true));
            var tried := P.Step(v, Check(p));
            In(v, p, Checking) && In(tried, p, Acquiring(30.0)) && tried.jobs[p].attempts == 1
  {
  }

  /** An attempt on a lease that is taken is followed by a sleep of 0.05 seconds, or what is
      left of the 30 if that is less; then it tries again. */
  lemma SleepIsShort(w: World, p: Pid)
    requires p in w.jobs && w.jobs[p].phase.Acquiring? && w.lease.Some?
    ensures var v := P.Step(w, TryAcquire(p, false));
            && p in v.jobs && v.jobs[p].phase.Sleeping? && v.lease == w.lease
            && v.jobs[p].phase.until - w.now <= 0.05 && v.jobs[p].phase.until - w.now <= w.jobs[p].phase.remaining
            && v.jobs[p].phase.until - w.now in {0.05, w.jobs[p].phase.remaining}
            && In(P.Step(v.(now := v.jobs[p].phase.until), Wake(p)), p, Checking)
  {
  }

  /** An attempt on a free lease takes it. */
  lemma FreeLeaseIsTaken(w: World, p: Pid)
    requires p in w.jobs && w.jobs[p].phase.Acquiring? && w.lease.None?
    ensures var v := P.Step(w, TryAcquire(p, false)); In(v, p, Leased) && v.lease == Some(p)
  {
  }

  /** A job that is not under the lease 30 seconds after its start gives up with nothing. */
  lemma LateJobGivesUp(w: World, p: Pid, dt: real)
    requires In(w, p, Checking) && dt >= 0.0 && w.now + dt >= w.jobs[p].started + 30.0
    ensures In(P.Step(P.Step(w, Tick(dt)), Check(p)), p, Finished(None))
  {
  }

  /** Under the lease a cancelled job ends with nothing, and any other goes on to load. */
  lemma LeasedFollows(w: World, p: Pid, es: seq<Event>)
    requires In(w, p, Leased) && !w.jobs[p].caller.Resumed?
    ensures var v := P.Step(w, Proceed(p));
            if w.jobs[p].cancelled then Settled(P.Run(v, es), p, None) else In(v, p, Loading)
  {
    if w.jobs[p].cancelled {
      OutcomeIsHandedOn(P.Step(w, Proceed(p)), es, p, None);
    }
  }

  // ------------------------------------------------------------- which outcome

  /** A commit that finds the job's snapshot and goes through stores what was granted, and
      that is the outcome. */
  lemma GrantIsHandedOn(w: World, p: Pid, retrieved: bool, o: Oracle, es: seq<Event>)
    requires Inv(w) && p in w.jobs && w.jobs[p].phase.Publishing?
    requires Current(w) == Present(w.jobs[p].tokens) && Readable(w.provider, w.useKeychain, w.backends, retrieved)
    requires w.jobs[p].granted.value.provider == w.provider && SaveGoesThrough(w.useKeychain, w.backends, o)
    ensures var v := P.Step(w, Publish(p, retrieved, o, false));
            && Current(v) == Present(w.jobs[p].granted.value)
            && v.log == w.log + [Refreshed(p, w.jobs[p].tokens, w.jobs[p].granted.value)]
            && Settled(P.Run(v, es), p, w.jobs[p].granted)
  {
    var j := w.jobs[p];
    assert JobInv(w, p, j);
    SaveIfCurrentReplies(w.useKeychain, w.backends, j.tokens, j.phase.refreshed, retrieved, o);
    OutcomeIsHandedOn(P.Step(w, Publish(p, retrieved, o, false)), es, p, j.granted);
  }

  /** A commit that raises gives the caller nothing; one that finds another value writes
      nothing and goes on to look for a winner. */
  lemma FailedCommit(w: World, p: Pid, retrieved: bool, o: Oracle, broken: bool, es: seq<Event>)
    requires Inv(w) && p in w.jobs && w.jobs[p].phase.Publishing?
    ensures var heard := !broken && w.jobs[p].granted.value.provider == w.provider
                         && Readable(w.provider, w.useKeychain, w.backends, retrieved);
            var v := P.Step(w, Publish(p, retrieved, o, broken));
            && (!heard || (Current(w) == Present(w.jobs[p].tokens) && !SaveGoesThrough(w.useKeychain, w.backends, o)) ==>
                  Settled(P.Run(v, es), p, None))
            && (heard && Current(w) != Present(w.jobs[p].tokens) ==>
                  In(v, p, Superseded) && v.backends == w.backends && v.log == w.log)
  {
    var j := w.jobs[p];
    assert JobInv(w, p, j);
    SaveIfCurrentReplies(w.useKeychain, w.backends, j.tokens, j.phase.refreshed, retrieved, o);
    var v := P.Step(w, Publish(p, retrieved, o, broken));
    if v.jobs[p].phase == Releasing(None) {
      OutcomeIsHandedOn(v, es, p, None);
    }
  }

  /** What the store holds, if it is credentials that have not expired. */
  function Valid(r: Reading, wallMs: int): Option<Tokens>
  {
    if r.Present? && wallMs < r.tokens.expiresAt - 60000 then Some(r.tokens) else None
  }

  /** A job whose snapshot was replaced hands on the winner, if it is still valid. */
  lemma WinnerIsHandedOn(w: World, p: Pid, retrieved: bool, wallMs: int, es: seq<Event>)
    requires In(w, p, Superseded) && !w.jobs[p].caller.Resumed?
    requires Readable(w.provider, w.useKeychain, w.backends, retrieved)
    ensures Settled(P.Run(P.Step(w, LoadWinner(p, retrieved, false, wallMs)), es), p, Valid(Current(w), wallMs))
  {
    LoadAnswers(w.provider, w.useKeychain, w.backends, false, retrieved);
    OutcomeIsHandedOn(P.Step(w, LoadWinner(p, retrieved, false, wallMs)), es, p, Valid(Current(w), wallMs));
  }

  /** Under the lease a job loads the register as it is. */
  lemma LoadsTheRegister(w: World, p: Pid, retrieved: bool)
    requires In(w, p, Loading) && Readable(w.provider, w.useKeychain, w.backends, retrieved)
    ensures P.Step(w, LoadCurrent(p, retrieved, false)) ==
      Move(w, p, w.jobs[p].(phase := Deciding(Held(Current(w))), loadedAt := |w.log|, misread := false), w.lease)
  {
    LoadAnswers(w.provider, w.useKeychain, w.backends, false, retrieved);
  }

  /** It settles for nothing if it found nothing, for other credentials if they are valid, and
      sends its request if it found its own snapshot, unless cancellation, the deadline or a
      missing provider prevents it. */
  lemma DecisionFollows(w: World, p: Pid, wallMs: int, broken: bool, es: seq<Event>)
    requires p in w.jobs && w.jobs[p].phase.Deciding? && !w.jobs[p].caller.Resumed?
    ensures var j := w.jobs[p];
            var found := j.phase.current;
            var v := P.Step(w, Decide(p, wallMs, broken));
            if found == Some(j.tokens) && !j.cancelled && w.now < j.started + 30.0 && !broken then
              && v.jobs[p].phase.Exchanging? && |v.sends| == |w.sends| + 1
              && v.sends[|w.sends|].pid == p && v.sends[|w.sends|].tokens == j.tokens && v.sends[|w.sends|].time == w.now
            else
              Settled(P.Run(v, es), p,
                      if found == Some(j.tokens) || found.None? then None else Valid(Present(found.value), wallMs))
  {
    var j := w.jobs[p];
    var found := j.phase.current;
    if !(found == Some(j.tokens) && !j.cancelled && w.now < Deadline(j) && !broken) {
      OutcomeIsHandedOn(P.Step(w, Decide(p, wallMs, broken)), es, p,
                        if found == Some(j.tokens) || found.None? then None else Valid(Present(found.value), wallMs));
    }
  }

  /** A granted refresh goes to its commit, and any other answer leaves the caller with
      nothing and the store as it was. */
  lemma AnswerFollows(w: World, p: Pid, reply: ExchangeReply, es: seq<Event>)
    requires In(w, p, Exchanging) && !w.jobs[p].caller.Resumed?
    ensures var v := P.Step(w, Answer(p, reply));
            && v.backends == w.backends
            && if reply.Granted? then In(v, p, Publishing(reply.tokens)) && v.jobs[p].granted == Some(reply.tokens)
               else Settled(P.Run(v, es), p, None)
  {
    if !reply.Granted? {
      OutcomeIsHandedOn(P.Step(w, Answer(p, reply)), es, p, None);
    }
  }

  // ------------------------------------------------------- a refresh that succeeds

  function Refresh(p: Pid, tokens: Tokens, granted: Tokens, o: Oracle): seq<Event>
  {
    UpToDecision(p, tokens, true, 0) +
      ([Answer(p, Granted(granted))] + ([Publish(p, true, o, false)] + ([Release(p)] + ([Resume(p)] + []))))
  }

  /** From an idle world whose register holds the job's snapshot, with good answers and before
      the deadline: the caller has the credentials granted, so has the register, one request
      was sent and the lease is free. */
  lemma RefreshSucceeds(w: World, p: Pid, tokens: Tokens, granted: Tokens, o: Oracle)
    requires Idle(w, p, tokens) && Current(w) == Present(tokens)
    requires granted.provider == w.provider && SaveGoesThrough(w.useKeychain, w.backends, o)
    ensures var v := P.Run(w, Refresh(p, tokens, granted, o));
            && p in v.jobs && v.jobs[p].caller == Resumed(Some(granted))
            && Current(v) == Present(granted) && v.lease == None
            && v.log == w.log + [Refreshed(p, tokens, granted)]
            && v.sends == w.sends + [Send(p, tokens, |w.log|, |w.log|, w.now, false)]
  {
    var start := UpToDecision(p, tokens, true, 0);
    var finish := [Release(p)] + ([Resume(p)] + []);
    var commit := [Publish(p, true, o, false)] + finish;
    LoadAnswers(w.provider, w.useKeychain, w.backends, false, true);
    StartUntilLoaded(w, p, tokens, true, 0);
    SendsFor(w, p, tokens, true);
    var sent := P.Run(w, start);
    RunThenRun(w, start, [Answer(p, Granted(granted))] + commit);
    StepThenRun(sent, Answer(p, Granted(granted)), commit);
    var answered := P.Step(sent, Answer(p, Granted(granted)));
    StepThenRun(answered, Publish(p, true, o, false), finish);
    CommitStores(answered, p, granted, o);
    ReleasesAndReturns(P.Step(answered, Publish(p, true, o, false)), p, granted);
  }

  lemma CommitStores(w: World, p: Pid, granted: Tokens, o: Oracle)
    requires In(w, p, Publishing(granted)) && w.jobs[p].tokens.provider == w.provider && ValidProvider(w.provider)
    requires Current(w) == Present(w.jobs[p].tokens) && Readable(w.provider, w.useKeychain, w.backends, true)
    requires granted.provider == w.provider && SaveGoesThrough(w.useKeychain, w.backends, o)
    ensures var v := P.Step(w, Publish(p, true, o, false));
            && v == Move(w, p, w.jobs[p].(phase := Releasing(Some(granted)), committed := true), w.lease)
                    .(backends := v.backends, log := w.log + [Refreshed(p, w.jobs[p].tokens, granted)])
            && Current(v) == Present(granted)
  {
    SaveIfCurrentReplies(w.useKeychain, w.backends, w.jobs[p].tokens, granted, true, o);
  }

  // ------------------------------------------------ nothing expired is handed out

  /** Credentials a job ends with were granted to it, or it found them and they were valid
      for some clock it read. */
  predicate Vouched(es: seq<Event>, p: Pid, granted: Option<Tokens>, t: Tokens)
  {
    granted == Some(t) || exists i :: 0 <= i < |es| && Checks(es[i], p, t)
  }

  predicate Checks(e: Event, p: Pid, t: Tokens)
  {
    (e.Decide? || e.LoadWinner?) && e.p == p && e.wallMs < t.expiresAt - 60000
  }

  predicate AllVouched(w: World, es: seq<Event>)
  {
    forall p :: p in w.jobs && (w.jobs[p].phase.Releasing? || w.jobs[p].phase.Finished?) && w.jobs[p].phase.outcome.Some? ==>
      Vouched(es, p, w.jobs[p].granted, w.jobs[p].phase.outcome.value)
  }

  /** A job ends with nothing, with what it was granted, with what it had, or with something
      that this event found valid. */
  predicate Legit(was: Option<Job>, j: Job, e: Event, p: Pid)
  {
    (j.phase.Releasing? || j.phase.Finished?) && j.phase.outcome.Some? ==>
      || j.granted == j.phase.outcome || Checks(e, p, j.phase.outcome.value)
      || (was.Some? && was.value.granted == j.granted && was.value.phase in {Releasing(j.phase.outcome), Finished(j.phase.outcome)})
  }

  function Was(w: World, p: Pid): Option<Job>
  {
    if p in w.jobs then Some(w.jobs[p]) else None
  }

  lemma PublishLegit(w: World, p: Pid, retrieved: bool, o: Oracle, broken: bool)
    requires p in w.jobs && w.jobs[p].phase.Publishing? && JobInv(w, p, w.jobs[p])
    ensures Legit(None, PublishStep(w, p, retrieved, o, broken).jobs[p], Publish(p, retrieved, o, broken), p)
  {
  }

  lemma DecideLegit(w: World, p: Pid, wallMs: int, broken: bool)
    requires p in w.jobs && w.jobs[p].phase.Deciding?
    ensures Legit(None, DecideStep(w, p, wallMs, broken).jobs[p], Decide(p, wallMs, broken), p)
  {
  }

  lemma WinnerLegit(w: World, p: Pid, retrieved: bool, broken: bool, wallMs: int)
    requires In(w, p, Superseded)
    ensures Legit(None, WinnerStep(w, p, retrieved, broken, wallMs).jobs[p], LoadWinner(p, retrieved, broken, wallMs), p)
  {
  }

  lemma EndingLegit(w: World, e: Event)
    requires Enabled(w, e) && (e.Release? || e.Resume? || e.Cancel?)
    ensures Legit(Was(w, e.p), P.Step(w, e).jobs[e.p], e, e.p)
  {
  }

  /** Up to the lease, and from it to an exchange, a job ends with nothing or not at all. */
  lemma WaitingLegit(w: World, e: Event)
    requires Enabled(w, e) && (e.Spawn? || e.Begin? || e.Check? || e.TryAcquire? || e.Wake?)
    ensures Legit(None, P.Step(w, e).jobs[e.p], e, e.p)
  {
  }

  lemma WorkingLegit(w: World, e: Event)
    requires Enabled(w, e) && (e.Proceed? || e.LoadCurrent? || e.Answer?)
    ensures Legit(None, P.Step(w, e).jobs[e.p], e, e.p)
  {
  }

  lemma EndsLegit(w: World, e: Event)
    requires Inv(w) && Enabled(w, e) && (e.Publish? || e.Decide? || e.LoadWinner?)
    ensures Legit(None, P.Step(w, e).jobs[e.p], e, e.p)
  {
    if e.Publish? {
      assert JobInv(w, e.p, w.jobs[e.p]);
      PublishLegit(w, e.p, e.retrieved, e.o, e.broken);
    } else if e.Decide? {
      DecideLegit(w, e.p, e.wallMs, e.broken);
    } else {
      WinnerLegit(w, e.p, e.retrieved, e.broken, e.wallMs);
    }
  }

  lemma OwnStepLegit(w: World, e: Event)
    requires Inv(w) && Enabled(w, e) && !e.Outside? && !e.Tick?
    ensures e.p in P.Step(w, e).jobs && Legit(Was(w, e.p), P.Step(w, e).jobs[e.p], e, e.p)
  {
    if e.Publish? || e.Decide? || e.LoadWinner? {
      EndsLegit(w, e);
    } else if e.Release? || e.Resume? || e.Cancel? {
      EndingLegit(w, e);
    } else if e.Proceed? || e.LoadCurrent? || e.Answer? {
      WorkingLegit(w, e);
    } else {
      WaitingLegit(w, e);
    }
  }

  predicate AllLegit(w: World, v: World, e: Event)
  {
    forall p :: p in v.jobs ==> (p in w.jobs && v.jobs[p] == w.jobs[p]) || Legit(Was(w, p), v.jobs[p], e, p)
  }

  lemma StepLegit(w: World, e: Event)
    requires Inv(w)
    ensures AllLegit(w, P.Step(w, e), e)
  {
    if Enabled(w, e) && !e.Outside? && !e.Tick? {
      StepMoves(w, e);
      OwnStepLegit(w, e);
    }
  }

  lemma VouchedBefore(es: seq<Event>, e: Event, p: Pid, granted: Option<Tokens>, t: Tokens)
    requires Vouched(es, p, granted, t) || Checks(e, p, t)
    ensures Vouched(es + [e], p, granted, t)
  {
    if Checks(e, p, t) {
      assert (es + [e])[|es|] == e;
    } else if granted != Some(t) {
      var i :| 0 <= i < |es| && Checks(es[i], p, t);
      assert (es + [e])[i] == es[i];
    }
  }

  lemma LegitVouched(w: World, v: World, es: seq<Event>, e: Event)
    requires AllVouched(w, es) && AllLegit(w, v, e)
    ensures AllVouched(v, es + [e])
  {
    forall p | p in v.jobs && (v.jobs[p].phase.Releasing? || v.jobs[p].phase.Finished?) && v.jobs[p].phase.outcome.Some?
      ensures Vouched(es + [e], p, v.jobs[p].granted, v.jobs[p].phase.outcome.value)
    {
      var t := v.jobs[p].phase.outcome.value;
      assert (p in w.jobs && v.jobs[p] == w.jobs[p]) || Legit(Was(w, p), v.jobs[p], e, p);
      if v.jobs[p].granted != Some(t) {
        VouchedBefore(es, e, p, v.jobs[p].granted, t);
      }
    }
  }

  /** In every run, credentials a job ends with and a caller is handed were granted to this
      job, or were found in the store and valid for a clock that the job read. */
  lemma {:induction false} NothingExpiredIsHandedOut(w: World, es: seq<Event>)
    requires Initial(w)
    ensures AllVouched(P.Run(w, es), es)
    ensures var v := P.Run(w, es);
            forall p :: p in v.jobs && v.jobs[p].caller.Resumed? && v.jobs[p].caller.outcome.Some? ==>
              Vouched(es, p, v.jobs[p].granted, v.jobs[p].caller.outcome.value)
    decreases |es|
  {
    if es != [] {
      var n := |es| - 1;
      NothingExpiredIsHandedOut(w, es[..n]);
      Reached(w, es[..n]);
      StepLegit(P.Run(w, es[..n]), es[n]);
      LegitVouched(P.Run(w, es[..n]), P.Step(P.Run(w, es[..n]), es[n]), es[..n], es[n]);
      assert es == es[..n] + [es[n]];
      RunThenRun(w, es[..n], [es[n]]);
      LastStep(P.Run(w, es[..n]), es[n]);
    }
    Reached(w, es);
    var v := P.Run(w, es);
    forall p | p in v.jobs && v.jobs[p].caller.Resumed? && v.jobs[p].caller.outcome.Some?
      ensures Vouched(es, p, v.jobs[p].granted, v.jobs[p].caller.outcome.value)
    {
      assert JobInv(v, p, v.jobs[p]);
    }
  }

  lemma LastStep(w: World, e: Event)
    ensures P.Run(w, [e]) == P.Step(w, e)
  {
    StepThenRun(w, e, []);
    assert [e] + [] == [e];
  }
}
