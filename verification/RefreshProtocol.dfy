/** The OAuth refresh protocol of koder_agent/auth/client_integration.py for one
    provider: any number of refreshers share a lease and a two-backend store, while
    logins, logouts and access-token updates write the store without the lease.

    A world is advanced by events; an event that is not enabled leaves the world as
    it is, so a run is any sequence of events and every interleaving is a run. Between
    two awaits of the source there is one event. The setting is section 6 of RFC 6749:
    a refresh may rotate the refresh token, so the answer of a request must not be lost
    and must not overwrite credentials that it was not computed from.
 */
module RefreshProtocol {
  import opened Prelude
  import opened TokenStore

  type Pid = nat

  const REFRESH_TIMEOUT_SECONDS := 30.0
  const LOCK_POLL_SECONDS := 0.05
  const EXPIRY_BUFFER_MS := 60000
  const MAX_ATTEMPTS := 600

  /** Where a refresh job stands. `Leased` to `Releasing` are the body of the
      try statement after `acquired` became true. */
  datatype Phase =
    | Created
    | Checking
    | Acquiring(remaining: real)
    | Sleeping(until: real)
    | Leased
    | Loading
    | Deciding(current: Option<Tokens>)
    | Exchanging
    | Publishing(refreshed: Tokens)
    | Superseded
    | Releasing(outcome: Option<Tokens>)
    | Finished(outcome: Option<Tokens>)

  /** The coroutine that awaits the job. */
  datatype Caller = Waiting | Cancelling | Resumed(outcome: Option<Tokens>) | CancelRaised

  /** `sent`, `granted`, `committed` and `loadedAt` record history: the request went
      out, its successful answer, the commit ran, and the log length at the load.
      `misread`: the last load met a hidden legacy file under an unreadable Keychain item. */
  datatype Job = Job(
    tokens: Tokens, started: real, cancelled: bool, phase: Phase, attempts: nat, caller: Caller,
    loadedAt: nat, sent: bool, granted: Option<Tokens>, committed: bool, misread: bool)

  /** A write that took effect on the register; `uncovered` marks a delete that uncovered a
      legacy file. */
  datatype Write =
    | External(op: Op, value: Reading, uncovered: bool)
    | Refreshed(pid: Pid, expected: Tokens, result: Tokens)

  /** A refresh token leaving for the provider; `at` is the log length then. */
  datatype Send = Send(pid: Pid, tokens: Tokens, loadedAt: nat, at: nat, time: real, misread: bool)

  datatype World = World(
    provider: string, useKeychain: bool, backends: Backends, lease: Option<Pid>, now: real,
    jobs: map<Pid, Job>, opening: Backends, log: seq<Write>, sends: seq<Send>)

  datatype ExchangeReply = Granted(tokens: Tokens) | Denied | Failed

  datatype Event =
    | Spawn(p: Pid, tokens: Tokens)
    | Begin(p: Pid, ready: bool)
    | Check(p: Pid)
    | TryAcquire(p: Pid, broken: bool)
    | Wake(p: Pid)
    | Proceed(p: Pid)
    | LoadCurrent(p: Pid, retrieved: bool, broken: bool)
    | Decide(p: Pid, wallMs: int, broken: bool)
    | Answer(p: Pid, reply: ExchangeReply)
    | Publish(p: Pid, retrieved: bool, o: Oracle, broken: bool)
    | LoadWinner(p: Pid, retrieved: bool, broken: bool, wallMs: int)
    | Release(p: Pid)
    | Resume(p: Pid)
    | Cancel(p: Pid)
    | Outside(op: Op)
    | Tick(dt: real)

  function Current(w: World): Reading
  {
    Read(w.provider, w.useKeychain, w.backends)
  }

  function Deadline(j: Job): real
  {
    j.started + REFRESH_TIMEOUT_SECONDS
  }

  predicate Expired(t: Tokens, wallMs: int)
  {
    wallMs >= t.expiresAt - EXPIRY_BUFFER_MS
  }

  predicate Holds(phase: Phase)
  {
    phase.Leased? || phase.Loading? || phase.Deciding? || phase.Exchanging? || phase.Publishing?
    || phase.Superseded? || phase.Releasing?
  }

  function Min(a: real, b: real): real
  {
    if a < b then a else b
  }

  // ------------------------------------------------------------------ steps

  function Goto(w: World, p: Pid, phase: Phase): World
    requires p in w.jobs
  {
    Move(w, p, w.jobs[p].(phase := phase), w.lease)
  }

  /** Replaces a job and says who holds the lease then. */
  function Move(w: World, p: Pid, j: Job, lease: Option<Pid>): World
  {
    w.(jobs := w.jobs[p := j], lease := lease)
  }

  predicate In(w: World, p: Pid, phase: Phase)
  {
    p in w.jobs && w.jobs[p].phase == phase
  }

  function NewJob(w: World, tokens: Tokens): Job
  {
    Job(tokens, w.now, false, Created, 0, Waiting, |w.log|, false, None, false, false)
  }

  /** _refresh_job up to the lease loop; `ready` is false when opening the store raised. The
      lease of an invalid provider identifier cannot be opened. */
  function BeginStep(w: World, p: Pid, ready: bool): World
    requires In(w, p, Created)
  {
    var j := w.jobs[p];
    Goto(w, p, if j.tokens.provider != w.provider || j.cancelled || !ready || !ValidProvider(w.provider)
                then Finished(None) else Checking)
  }

  /** The top of the lease loop: cancellation, then the deadline, then one attempt. */
  function CheckStep(w: World, p: Pid): World
    requires In(w, p, Checking)
  {
    var j := w.jobs[p];
    var remaining := Deadline(j) - w.now;
    if j.cancelled || remaining <= 0.0 then Goto(w, p, Finished(None))
    else Move(w, p, j.(phase := Acquiring(remaining), attempts := j.attempts + 1), w.lease)
  }

  /** The nonblocking acquire, performed by a worker thread. */
  function AcquireStep(w: World, p: Pid, broken: bool): World
    requires p in w.jobs && w.jobs[p].phase.Acquiring?
  {
    var j := w.jobs[p];
    if broken then Goto(w, p, Finished(None))
    else if w.lease == None then Move(w, p, j.(phase := Leased), Some(p))
    else Goto(w, p, Sleeping(w.now + Min(LOCK_POLL_SECONDS, j.phase.remaining)))
  }

  function LoadStep(w: World, p: Pid, retrieved: bool, broken: bool): World
    requires In(w, p, Loading)
  {
    if broken then Goto(w, p, Releasing(None))
    else
      var r := Load(w.provider, w.useKeychain, w.backends, false, retrieved);
      Move(w, p, w.jobs[p].(phase := Deciding(r.tokens), loadedAt := |w.log|,
                            misread := Misreads(w.provider, w.useKeychain, w.backends, retrieved)), w.lease)
  }

  /** What happens between the reload and the request, without an await; `broken` is
      a provider that cannot be looked up. */
  function DecideStep(w: World, p: Pid, wallMs: int, broken: bool): World
    requires p in w.jobs && w.jobs[p].phase.Deciding?
  {
    var j := w.jobs[p];
    var current := j.phase.current;
    if current.None? then Goto(w, p, Releasing(None))
    else if current.value != j.tokens then
      Goto(w, p, Releasing(if !Expired(current.value, wallMs) then current else None))
    else if j.cancelled || w.now >= Deadline(j) || broken then Goto(w, p, Releasing(None))
    else
      Move(w, p, j.(phase := Exchanging, sent := true), w.lease)
      .(sends := w.sends + [Send(p, j.tokens, j.loadedAt, |w.log|, w.now, j.misread)])
  }

  function AnswerStep(w: World, p: Pid, reply: ExchangeReply): World
    requires In(w, p, Exchanging)
  {
    if reply.Granted? then
      Move(w, p, w.jobs[p].(phase := Publishing(reply.tokens), granted := Some(reply.tokens)), w.lease)
    else Goto(w, p, Releasing(None))
  }

  /** save_if_current inside _commit_refresh; `broken` is a provider lock that timed out. */
  function PublishStep(w: World, p: Pid, retrieved: bool, o: Oracle, broken: bool): World
    requires p in w.jobs && w.jobs[p].phase.Publishing?
  {
    var j := w.jobs[p];
    var refreshed := j.phase.refreshed;
    if broken then Move(w, p, j.(phase := Releasing(None), committed := true), w.lease)
    else
      var a := Apply(w.useKeychain, w.backends, SaveIfCurrent(j.tokens, refreshed, retrieved, o));
      var phase := match a.reply
        case Raised => Releasing(None)
        case Returned(true) => Releasing(Some(refreshed))
        case Returned(false) => Superseded;
      var took := Current(w) == Present(j.tokens) && a.reply != Returned(false)
                  && Read(w.provider, w.useKeychain, a.after) == Present(refreshed);
      Move(w, p, j.(phase := phase, committed := true), w.lease)
      .(backends := a.after, log := if took then w.log + [Refreshed(p, j.tokens, refreshed)] else w.log)
  }

  function WinnerStep(w: World, p: Pid, retrieved: bool, broken: bool, wallMs: int): World
    requires In(w, p, Superseded)
  {
    if broken then Goto(w, p, Releasing(None))
    else
      var r := Load(w.provider, w.useKeychain, w.backends, false, retrieved);
      Move(w, p, w.jobs[p].(phase := Releasing(if r.tokens.Some? && !Expired(r.tokens.value, wallMs) then r.tokens else None),
                            misread := Misreads(w.provider, w.useKeychain, w.backends, retrieved)), w.lease)
  }

  function ReleaseStep(w: World, p: Pid): World
    requires p in w.jobs && w.jobs[p].phase.Releasing?
  {
    var j := w.jobs[p];
    Move(w, p, j.(phase := Finished(j.phase.outcome)), None)
  }

  /** The awaiting coroutine continues once the job is done. */
  function ResumeStep(w: World, p: Pid): World
    requires p in w.jobs && w.jobs[p].phase.Finished?
    requires w.jobs[p].caller.Waiting? || w.jobs[p].caller.Cancelling?
  {
    var j := w.jobs[p];
    Move(w, p, j.(caller := if j.caller.Waiting? then Resumed(j.phase.outcome) else CancelRaised), w.lease)
  }

  function CancelStep(w: World, p: Pid): World
    requires p in w.jobs && w.jobs[p].caller.Waiting?
  {
    Move(w, p, w.jobs[p].(caller := Cancelling, cancelled := true), w.lease)
  }

  /** A login, logout or access-token update, outside the lease. */
  function OutsideStep(w: World, op: Op): World
  {
    var a := Apply(w.useKeychain, w.backends, op);
    var after := Read(w.provider, w.useKeychain, a.after);
    var uncovered := Uncovers(w.useKeychain, w.backends, op);
    w.(backends := a.after,
       log := if after == Ideal(op, Current(w)) || uncovered then w.log + [External(op, after, uncovered)] else w.log)
  }

  predicate Enabled(w: World, e: Event)
  {
    match e
    case Spawn(p, _) => p !in w.jobs
    case Begin(p, _) => In(w, p, Created)
    case Check(p) => In(w, p, Checking)
    case TryAcquire(p, _) => p in w.jobs && w.jobs[p].phase.Acquiring?
    case Wake(p) => p in w.jobs && w.jobs[p].phase.Sleeping? && w.now >= w.jobs[p].phase.until
    case Proceed(p) => In(w, p, Leased)
    case LoadCurrent(p, _, _) => In(w, p, Loading)
    case Decide(p, _, _) => p in w.jobs && w.jobs[p].phase.Deciding?
    case Answer(p, _) => In(w, p, Exchanging)
    case Publish(p, _, _, _) => p in w.jobs && w.jobs[p].phase.Publishing?
    case LoadWinner(p, _, _, _) => In(w, p, Superseded)
    case Release(p) => p in w.jobs && w.jobs[p].phase.Releasing?
    case Resume(p) =>
      p in w.jobs && w.jobs[p].phase.Finished? && (w.jobs[p].caller.Waiting? || w.jobs[p].caller.Cancelling?)
    case Cancel(p) => p in w.jobs && w.jobs[p].caller.Waiting?
    case Outside(op) => !op.SaveIfCurrent? && Target(op) == w.provider
    case Tick(dt) => dt >= 0.0
  }

  function Step(w: World, e: Event): World
  {
    if !Enabled(w, e) then w
    else
      match e
      case Spawn(p, tokens) => Move(w, p, NewJob(w, tokens), w.lease)
      case Begin(p, ready) => BeginStep(w, p, ready)
      case Check(p) => CheckStep(w, p)
      case TryAcquire(p, broken) => AcquireStep(w, p, broken)
      case Wake(p) => Goto(w, p, Checking)
      case Proceed(p) => Goto(w, p, if w.jobs[p].cancelled then Releasing(None) else Loading)
      case LoadCurrent(p, retrieved, broken) => LoadStep(w, p, retrieved, broken)
      case Decide(p, wallMs, broken) => DecideStep(w, p, wallMs, broken)
      case Answer(p, reply) => AnswerStep(w, p, reply)
      case Publish(p, retrieved, o, broken) => PublishStep(w, p, retrieved, o, broken)
      case LoadWinner(p, retrieved, broken, wallMs) => WinnerStep(w, p, retrieved, broken, wallMs)
      case Release(p) => ReleaseStep(w, p)
      case Resume(p) => ResumeStep(w, p)
      case Cancel(p) => CancelStep(w, p)
      case Outside(op) => OutsideStep(w, op)
      case Tick(dt) => w.(now := w.now + dt)
  }

  function Run(w: World, es: seq<Event>): World
    decreases es
  {
    if es == [] then w else Run(Step(w, es[0]), es[1..])
  }

  predicate Initial(w: World)
  {
    && w.lease == None && w.jobs == map[] && w.log == [] && w.sends == []
    && w.opening == w.backends
  }

  // -------------------------------------------------------------- invariant

  /** The register's value after the first `k` writes. */
  function ValueAt(w: World, k: nat): Reading
    requires k <= |w.log|
  {
    if k == 0 then Read(w.provider, w.useKeychain, w.opening)
    else match w.log[k - 1]
         case External(_, v, _) => v
         case Refreshed(_, _, r) => Present(r)
  }

  /** No refresh was published from log position `k` on, up to position `n`. */
  predicate Quiet(w: World, k: nat, n: nat)
    requires n <= |w.log|
  {
    forall i :: k <= i < n ==> w.log[i].External?
  }

  predicate StoreInv(w: World)
  {
    && Current(w) == ValueAt(w, |w.log|)
    && Descends(w.provider, w.opening, w.backends)
    && (w.lease.Some? ==> w.lease.value in w.jobs)
  }

  /** The register held `t` at some moment since the log had `n` entries. */
  predicate HeldSince(w: World, n: nat, t: Tokens)
  {
    exists k: nat :: n <= k <= |w.log| && ValueAt(w, k) == Present(t)
  }

  predicate WasHeld(w: World, t: Tokens)
  {
    HeldSince(w, 0, t)
  }

  /** The store began with a legacy file that a tolerant load may one day fall back to. */
  predicate CanMisread(w: World)
  {
    w.useKeychain && ValidProvider(w.provider) && OwnLegacy(w.provider, w.opening)
  }

  /** The store began with no credentials in the register and a legacy file hidden under
      what the Keychain held instead. */
  predicate CanFill(w: World)
  {
    && w.useKeychain && ValidProvider(w.provider) && HidesLegacyFile(w.provider, w.opening)
    && !Read(w.provider, w.useKeychain, w.opening).Present?
  }

  /** A value a job works with: the register held it since the job's load, or the job
      misread the store and it is the legacy file's. */
  predicate Sourced(w: World, j: Job, t: Tokens)
  {
    HeldSince(w, j.loadedAt, t) || (j.misread && w.opening.file == Record(t, false))
  }

  predicate Sent(w: World, p: Pid)
  {
    exists i :: 0 <= i < |w.sends| && w.sends[i].pid == p
  }

  /** What a job's own fields say about each other and about the lease. */
  predicate ControlInv(provider: string, mine: bool, j: Job)
  {
    && (Holds(j.phase) <==> mine)
    && (Holds(j.phase) || j.phase.Checking? || j.phase.Acquiring? || j.phase.Sleeping? ==>
          j.tokens.provider == provider && ValidProvider(provider))
    && (j.cancelled <==> j.caller.Cancelling? || j.caller.CancelRaised?)
    && (j.caller.Resumed? ==> j.phase == Finished(j.caller.outcome))
    && (j.caller.CancelRaised? ==> j.phase.Finished?)
    && (j.phase.Publishing? <==> j.granted.Some? && !j.committed)
    && (j.phase.Publishing? ==> j.granted == Some(j.phase.refreshed))
    && (j.phase.Exchanging? || j.granted.Some? ==> j.sent)
    && (j.committed ==> j.granted.Some?)
    && (j.phase.Exchanging? ==> j.granted.None?)
    && (j.sent ==> j.phase.Exchanging? || j.phase.Publishing? || j.phase.Superseded?
                   || j.phase.Releasing? || j.phase.Finished?)
  }

  /** The lease loop has used at least one poll interval per failed attempt. */
  predicate PaceInv(now: real, j: Job)
  {
    && j.attempts <= MAX_ATTEMPTS
    && j.started <= now
    && match j.phase
       case Created => j.attempts == 0
       case Checking => now >= Deadline(j) || now >= Paced(j, j.attempts)
       case Sleeping(until) => until >= Deadline(j) || until >= Paced(j, j.attempts)
       case Acquiring(remaining) =>
         && j.attempts >= 1
         && 0.0 < remaining <= Deadline(j) - Paced(j, j.attempts - 1)
         && now >= Deadline(j) - remaining
       case _ => true
  }

  /** The earliest time at which a job can be through with `attempts` attempts. */
  function Paced(j: Job, attempts: int): real
  {
    j.started + attempts as real * 0.05
  }

  /** What a job's fields say about the requests and the writes so far. */
  predicate HistoryInv(w: World, p: Pid, j: Job)
  {
    && (j.sent <==> Sent(w, p))
    && j.loadedAt <= |w.log|
    && (j.misread ==> CanMisread(w))
    && ((j.phase.Releasing? || j.phase.Finished?) && j.phase.outcome.Some? ==> Sourced(w, j, j.phase.outcome.value))
    && ReloadInv(w, j)
  }

  predicate JobInv(w: World, p: Pid, j: Job)
  {
    ControlInv(w.provider, w.lease == Some(p), j) && PaceInv(w.now, j) && HistoryInv(w, p, j)
  }

  /** While the job works on the snapshot it reloaded, no other refresh is published. */
  predicate ReloadInv(w: World, j: Job)
  {
    j.phase.Deciding? || j.phase.Exchanging? || j.phase.Publishing? ==>
      && j.loadedAt <= |w.log|
      && Quiet(w, j.loadedAt, |w.log|)
      && (j.phase.Deciding? && j.phase.current.Some? ==>
            ValueAt(w, j.loadedAt) == Present(j.phase.current.value)
            || (j.misread && w.opening.file == Record(j.phase.current.value, false)))
      && (!j.phase.Deciding? ==> j.misread || ValueAt(w, j.loadedAt) == Present(j.tokens))
  }

  /** A request carries the snapshot that the store held when it was reloaded, is sent
      before the deadline, and no refresh was published since the reload. */
  predicate SendInv(w: World, s: Send)
  {
    && s.pid in w.jobs && w.jobs[s.pid].tokens == s.tokens
    && s.time < Deadline(w.jobs[s.pid])
    && s.loadedAt <= s.at <= |w.log|
    && (s.misread || ValueAt(w, s.loadedAt) == Present(s.tokens))
    && (s.misread ==> CanMisread(w))
    && Quiet(w, s.loadedAt, s.at)
  }

  /** A published refresh replaces exactly the snapshot its own request was sent for. */
  predicate WriteInv(w: World, k: nat)
    requires k < |w.log|
  {
    match w.log[k]
    case External(op, v, uncovered) =>
      && !op.SaveIfCurrent? && (if uncovered then op.Delete? && v.Present? && (ValueAt(w, k).Present? || CanFill(w))
                             else v == Ideal(op, ValueAt(w, k)))
    case Refreshed(p, expected, _) =>
      && ValueAt(w, k) == Present(expected)
      && exists i :: 0 <= i < |w.sends| && w.sends[i].pid == p && w.sends[i].tokens == expected && w.sends[i].at <= k
  }

  predicate JobsInv(w: World)
  {
    forall p :: p in w.jobs ==> JobInv(w, p, w.jobs[p])
  }

  predicate SendsInv(w: World)
  {
    && (forall i :: 0 <= i < |w.sends| ==> SendInv(w, w.sends[i]))
    && (forall i, j :: 0 <= i < j < |w.sends| ==> w.sends[i].pid != w.sends[j].pid)
  }

  predicate LogInv(w: World)
  {
    forall k :: 0 <= k < |w.log| ==> WriteInv(w, k)
  }

  predicate Inv(w: World)
  {
    StoreInv(w) && JobsInv(w) && SendsInv(w) && LogInv(w)
  }

  // --------------------------------------------------------------- theorems
  // Each is about every run: any events, in any order, with any answers.

  lemma ShortStepInv(w: World, e: Event)
    requires Inv(w) && Short(w, e)
    ensures Inv(Step(w, e))
  {
    assert JobInv(w, e.p, w.jobs[e.p]);
    ShortStepFits(w, e);
    var v := Step(w, e);
    MoveInv(w, e.p, v.jobs[e.p], v.lease);
  }

  lemma LongStepInv(w: World, e: Event)
    requires Inv(w) && Enabled(w, e) && (e.Decide? || e.Publish?) && !Short(w, e)
    ensures Inv(Step(w, e))
  {
    if e.Decide? {
      RequestInv(w, e.p, e.wallMs, e.broken);
    } else {
      assert JobInv(w, e.p, w.jobs[e.p]);
      CompareAndSwapInv(w, e.p, e.retrieved, e.o);
    }
  }

  lemma OutsideStepInv(w: World, op: Op)
    requires Inv(w) && Enabled(w, Outside(op))
    ensures Inv(Step(w, Outside(op)))
  {
    OutsideInv(w, op);
  }

  lemma TickStepInv(w: World, dt: real)
    requires Inv(w) && Enabled(w, Tick(dt))
    ensures Inv(Step(w, Tick(dt)))
  {
    TickInv(w, dt);
  }

  lemma SpawnStepInv(w: World, p: Pid, tokens: Tokens)
    requires Inv(w) && Enabled(w, Spawn(p, tokens))
    ensures Inv(Step(w, Spawn(p, tokens)))
  {
    SpawnInv(w, p, tokens);
  }

  /** Every event of a job, a caller, another writer or the clock keeps the invariant. */
  lemma StepInv(w: World, e: Event)
    requires Inv(w)
    ensures Inv(Step(w, e))
  {
    if !Enabled(w, e) {
    } else if e.Outside? {
      OutsideStepInv(w, e.op);
    } else if e.Tick? {
      TickStepInv(w, e.dt);
    } else if e.Spawn? {
      SpawnStepInv(w, e.p, e.tokens);
    } else if Short(w, e) {
      ShortStepInv(w, e);
    } else {
      LongStepInv(w, e);
    }
  }

  lemma {:induction false} RunInv(w: World, es: seq<Event>)
    requires Inv(w)
    ensures Inv(Run(w, es))
    decreases es
  {
    if es != [] {
      StepInv(w, es[0]);
      RunInv(Step(w, es[0]), es[1..]);
    }
  }

  lemma Reached(w: World, es: seq<Event>)
    requires Initial(w)
    ensures Inv(Run(w, es))
  {
    assert Inv(w);
    RunInv(w, es);
  }

  /** Mutual exclusion of the refresh lease. */
  lemma AtMostOneHolder(w: World, es: seq<Event>, p: Pid, q: Pid)
    requires Initial(w)
    ensures var w' := Run(w, es);
            p in w'.jobs && q in w'.jobs && Holds(w'.jobs[p].phase) && Holds(w'.jobs[q].phase) ==> p == q
  {
    Reached(w, es);
    var w' := Run(w, es);
    if p in w'.jobs && q in w'.jobs {
      assert JobInv(w', p, w'.jobs[p]) && JobInv(w', q, w'.jobs[q]);
    }
  }

  /** A refresh is published only over the exact snapshot its own request carried, so
      whatever a login or logout wrote while the request was out is never overwritten:
      if the write before the publication left anything but that snapshot, it fails. */
  lemma PublishedOverOwnSnapshot(w: World, es: seq<Event>, k: nat)
    requires Initial(w) && k < |Run(w, es).log| && Run(w, es).log[k].Refreshed?
    ensures var w' := Run(w, es);
            var f := w'.log[k];
            && ValueAt(w', k) == Present(f.expected)
            && f.pid in w'.jobs && w'.jobs[f.pid].tokens == f.expected
            && exists i :: 0 <= i < |w'.sends| && w'.sends[i].pid == f.pid && w'.sends[i].tokens == f.expected
                           && w'.sends[i].loadedAt <= w'.sends[i].at <= k
                           && (w'.sends[i].misread || ValueAt(w', w'.sends[i].loadedAt) == Present(f.expected))
  {
    Reached(w, es);
    var w' := Run(w, es);
    assert WriteInv(w', k);
    var i :| 0 <= i < |w'.sends| && w'.sends[i].pid == w'.log[k].pid && w'.sends[i].tokens == w'.log[k].expected
      && w'.sends[i].at <= k;
    assert SendInv(w', w'.sends[i]);
  }

  /** Which writes put credentials into a store that has none: exactly explicit saves, and
      deletes that uncover a legacy file. No refresh and no token update resurrects a
      logged-out provider. */
  lemma StoreIsFilledIff(w: World, es: seq<Event>, k: nat)
    requires Initial(w) && k < |Run(w, es).log| && !ValueAt(Run(w, es), k).Present?
    ensures var f := Run(w, es).log[k];
            ValueAt(Run(w, es), k + 1).Present? <==> f.External? && (f.op.Save? || f.uncovered)
    ensures var f := Run(w, es).log[k];
            f.External? && f.uncovered ==> CanFill(w)
    ensures var f := Run(w, es).log[k];
            f.External? && f.op.Save? ==> ValueAt(Run(w, es), k + 1) == Present(f.op.tokens)
  {
    Reached(w, es);
    RunContinues(w, es);
    assert WriteInv(Run(w, es), k);
  }

  /** Once a different result replaced a snapshot, no job sends that snapshot's refresh
      token again, unless some later write put the very same snapshot back, or the job
      misread the store. */
  lemma NoResendAfterCommit(w: World, es: seq<Event>, k: nat, i: nat)
    requires Initial(w)
    requires k < |Run(w, es).log| && Run(w, es).log[k].Refreshed?
    requires Run(w, es).log[k].result != Run(w, es).log[k].expected
    requires i < |Run(w, es).sends| && Run(w, es).sends[i].tokens == Run(w, es).log[k].expected
    requires k < Run(w, es).sends[i].at
    ensures || (Run(w, es).sends[i].misread && CanMisread(w))
            || exists m: nat :: k + 1 < m <= Run(w, es).sends[i].at <= |Run(w, es).log|
                             && ValueAt(Run(w, es), m) == Present(Run(w, es).log[k].expected)
  {
    Reached(w, es);
    var w' := Run(w, es);
    var s := w'.sends[i];
    assert SendInv(w', s);
    RunContinues(w, es);
    assert s.loadedAt > k;
    assert ValueAt(w', k + 1) == Present(w'.log[k].result);
    if !s.misread {
      assert ValueAt(w', s.loadedAt) == Present(w'.log[k].expected);
    }
  }

  /** A job sends at most one request, before its deadline. */
  lemma OneRequestPerJob(w: World, es: seq<Event>, i: nat, j: nat)
    requires Initial(w) && i < |Run(w, es).sends| && j < |Run(w, es).sends|
    ensures var w' := Run(w, es);
            && (w'.sends[i].pid == w'.sends[j].pid ==> i == j)
            && w'.sends[i].pid in w'.jobs
            && w'.sends[i].time < Deadline(w'.jobs[w'.sends[i].pid])
  {
    Reached(w, es);
    assert SendInv(Run(w, es), Run(w, es).sends[i]);
  }

  /** The lease loop gives up after at most 600 attempts (30 s at 0.05 s). */
  lemma BoundedAttempts(w: World, es: seq<Event>, p: Pid)
    requires Initial(w) && p in Run(w, es).jobs
    ensures Run(w, es).jobs[p].attempts <= MAX_ATTEMPTS
  {
    Reached(w, es);
    assert JobInv(Run(w, es), p, Run(w, es).jobs[p]);
  }

  /** When the awaiting caller continues, by returning or by raising, the job is done:
      it does not hold the lease, and a granted refresh went through its commit. */
  lemma CallerContinuesLast(w: World, es: seq<Event>, p: Pid)
    requires Initial(w) && p in Run(w, es).jobs
    requires Run(w, es).jobs[p].caller.Resumed? || Run(w, es).jobs[p].caller.CancelRaised?
    ensures var w' := Run(w, es);
            var j := w'.jobs[p];
            && w'.lease != Some(p) && j.phase.Finished?
            && (j.granted.Some? ==> j.committed)
            && (j.caller.Resumed? <==> !j.cancelled)
            && (j.caller.Resumed? ==> j.caller.outcome == j.phase.outcome)
  {
    Reached(w, es);
    assert JobInv(Run(w, es), p, Run(w, es).jobs[p]);
  }

  /** Credentials handed to a caller were the register's value at some moment since its job
      was spawned, unless the job misread the store: then they are the legacy file's. */
  lemma OutcomeWasStored(w: World, before: seq<Event>, after: seq<Event>, p: Pid)
    requires Initial(w) && p !in Run(w, before).jobs
    requires p in Run(w, before + after).jobs
    requires Run(w, before + after).jobs[p].caller.Resumed? && Run(w, before + after).jobs[p].caller.outcome.Some?
    ensures var v := Run(w, before + after);
            var t := v.jobs[p].caller.outcome.value;
            HeldSince(v, |Run(w, before).log|, t) || (v.jobs[p].misread && CanMisread(w) && w.backends.file == Record(t, false))
  {
    Reached(w, before + after);
    var v := Run(w, before + after);
    var t := v.jobs[p].caller.outcome.value;
    assert JobInv(v, p, v.jobs[p]);
    RunThenRun(w, before, after);
    LoadsLate(Run(w, before), after, p, |Run(w, before).log|);
    RunContinues(w, before + after);
  }

  lemma {:induction false} RunThenRun(w: World, xs: seq<Event>, ys: seq<Event>)
    ensures Run(w, xs + ys) == Run(Run(w, xs), ys)
    decreases xs
  {
    if xs == [] {
      assert xs + ys == ys;
    } else {
      assert (xs + ys)[0] == xs[0] && (xs + ys)[1..] == xs[1..] + ys;
      RunThenRun(Step(w, xs[0]), xs[1..], ys);
    }
  }

  /** No exchange starts after cancellation was requested or the deadline has passed. */
  predicate Barred(w: World, p: Pid)
  {
    p in w.jobs && (w.jobs[p].cancelled || w.now >= Deadline(w.jobs[p]))
  }

  lemma BarredStep(w: World, e: Event, p: Pid)
    requires Barred(w, p)
    ensures Barred(Step(w, e), p)
    ensures Step(w, e).sends == w.sends
            || (|Step(w, e).sends| == |w.sends| + 1 && Step(w, e).sends[..|w.sends|] == w.sends
                && Step(w, e).sends[|w.sends|].pid != p)
  {
    if Enabled(w, e) && !e.Outside? && !e.Tick? {
      StepMoves(w, e);
    }
    StepSends(w, e);
  }

  lemma {:induction false} NoRequestOnceBarred(w: World, es: seq<Event>, p: Pid)
    requires Barred(w, p)
    ensures |w.sends| <= |Run(w, es).sends| && Run(w, es).sends[..|w.sends|] == w.sends
    ensures forall i :: |w.sends| <= i < |Run(w, es).sends| ==> Run(w, es).sends[i].pid != p
    decreases es
  {
    if es != [] {
      var next := Step(w, es[0]);
      BarredStep(w, es[0], p);
      NoRequestOnceBarred(next, es[1..], p);
      var end := Run(next, es[1..]);
      assert end.sends[..|w.sends|] == end.sends[..|next.sends|][..|w.sends|];
      forall i | |w.sends| <= i < |next.sends|
        ensures end.sends[i].pid != p
      {
        assert end.sends[i] == end.sends[..|next.sends|][i];
      }
    }
  }

  /** How many of its own steps a holder is away from having released the lease. */
  function StepsLeft(phase: Phase): nat
  {
    match phase
    case Leased => 7
    case Loading => 6
    case Deciding(_) => 5
    case Exchanging => 4
    case Publishing(_) => 3
    case Superseded => 2
    case Releasing(_) => 1
    case _ => 0
  }

  /** A job's own events under the lease. */
  predicate OwnEvent(e: Event, p: Pid)
  {
    || e == Proceed(p) || (e.LoadCurrent? && e.p == p) || (e.Decide? && e.p == p) || (e.Answer? && e.p == p)
    || (e.Publish? && e.p == p) || (e.LoadWinner? && e.p == p) || e == Release(p)
  }

  lemma HolderCanMove(w: World, p: Pid) returns (own: Event)
    requires Inv(w) && w.lease == Some(p)
    ensures OwnEvent(own, p) && Enabled(w, own)
  {
    assert JobInv(w, p, w.jobs[p]);
    own := match w.jobs[p].phase
      case Leased => Proceed(p)
      case Loading => LoadCurrent(p, true, false)
      case Deciding(_) => Decide(p, 0, false)
      case Exchanging => Answer(p, Denied)
      case Publishing(_) => Publish(p, true, Oracle(Confirmed, true), false)
      case Superseded => LoadWinner(p, true, false, 0)
      case _ => Release(p);
  }

  lemma OtherEventKeepsPhase(w: World, p: Pid, e: Event)
    requires p in w.jobs && Holds(w.jobs[p].phase) && !OwnEvent(e, p)
    ensures p in Step(w, e).jobs && Step(w, e).jobs[p].phase == w.jobs[p].phase
  {
    if Enabled(w, e) && !e.Outside? && !e.Tick? && e.p != p {
      StepMoves(w, e);
    }
  }

  /** The number of `p`'s own moves in a run. */
  function OwnMoves(w: World, es: seq<Event>, p: Pid): nat
    decreases es
  {
    if es == [] then 0
    else (if OwnEvent(es[0], p) && Enabled(w, es[0]) then 1 else 0) + OwnMoves(Step(w, es[0]), es[1..], p)
  }

  /** The lease cannot be kept: while a job holds it, it can always move, nobody else's
      event moves it, and after at most seven moves of its own, whatever the answers
      were, it has let go. */
  lemma {:induction false} LeaseIsReleased(w: World, es: seq<Event>, p: Pid)
    requires Inv(w) && w.lease == Some(p)
    requires OwnMoves(w, es, p) >= 7
    ensures exists n: nat :: n <= |es| && Run(w, es[..n]).lease != Some(p)
  {
    assert JobInv(w, p, w.jobs[p]);
    var n := ReleasePoint(w, es, p);
  }

  lemma {:induction false} ReleasePoint(w: World, es: seq<Event>, p: Pid) returns (n: nat)
    requires Inv(w) && p in w.jobs
    requires OwnMoves(w, es, p) >= StepsLeft(w.jobs[p].phase)
    ensures n <= |es| && Run(w, es[..n]).lease != Some(p)
    decreases es
  {
    assert JobInv(w, p, w.jobs[p]);
    if w.lease != Some(p) {
      n := 0;
    } else {
      var e := es[0];
      StepInv(w, e);
      if OwnEvent(e, p) {
        if Enabled(w, e) {
          OwnEventAdvances(w, p, e);
        }
      } else {
        OtherEventKeepsPhase(w, p, e);
      }
      var m := ReleasePoint(Step(w, e), es[1..], p);
      n := m + 1;
      assert es[..n][1..] == es[1..][..m];
    }
  }

  // ----------------------------------------------- proof that steps keep the invariant

  /** What a step may do to a world as far as a bystander is concerned. */
  predicate Extends(w: World, w': World)
  {
    && w.provider == w'.provider && w.useKeychain == w'.useKeychain && w.opening == w'.opening
    && w.log <= w'.log && w.sends <= w'.sends && w.now <= w'.now
  }

  lemma ValueStable(w: World, w': World, k: nat)
    requires Extends(w, w') && k <= |w.log|
    ensures ValueAt(w', k) == ValueAt(w, k)
  {
  }

  lemma HeldStable(w: World, w': World, n: nat, t: Tokens)
    requires Extends(w, w') && HeldSince(w, n, t)
    ensures HeldSince(w', n, t)
  {
    var k: nat :| n <= k <= |w.log| && ValueAt(w, k) == Present(t);
    ValueStable(w, w', k);
  }

  /** A job that did not move keeps its invariant, unless it works on a reloaded
      snapshot while somebody publishes a refresh. */
  lemma JobFrame(w: World, w': World, p: Pid, j: Job)
    requires Extends(w, w') && JobInv(w, p, j)
    requires Sent(w', p) == Sent(w, p)
    requires (w'.lease == Some(p)) == (w.lease == Some(p))
    requires w.lease == Some(p) ==> Quiet(w', |w.log|, |w'.log|)
    ensures JobInv(w', p, j)
  {
    if (j.phase.Releasing? || j.phase.Finished?) && j.phase.outcome.Some?
       && HeldSince(w, j.loadedAt, j.phase.outcome.value) {
      HeldStable(w, w', j.loadedAt, j.phase.outcome.value);
    }
    ValueStable(w, w', j.loadedAt);
  }

  lemma SendFrame(w: World, w': World, s: Send)
    requires Extends(w, w') && SendInv(w, s)
    requires s.pid in w'.jobs && w'.jobs[s.pid].tokens == w.jobs[s.pid].tokens
    requires w'.jobs[s.pid].started == w.jobs[s.pid].started
    ensures SendInv(w', s)
  {
    ValueStable(w, w', s.loadedAt);
  }

  lemma WriteFrame(w: World, w': World, k: nat)
    requires Extends(w, w') && k < |w.log| && WriteInv(w, k)
    ensures WriteInv(w', k)
  {
    ValueStable(w, w', k);
    if w.log[k].Refreshed? {
      var i :| 0 <= i < |w.sends| && w.sends[i].pid == w.log[k].pid && w.sends[i].tokens == w.log[k].expected
        && w.sends[i].at <= k;
      assert w'.sends[i] == w.sends[i];
    }
  }

  lemma SentFrame(w: World, w': World, q: Pid, p: Pid)
    requires w.sends <= w'.sends && q != p
    requires w'.sends == w.sends || (|w'.sends| == |w.sends| + 1 && w'.sends[|w.sends|].pid == p)
    ensures Sent(w', q) == Sent(w, q)
  {
    if Sent(w, q) {
      var i :| 0 <= i < |w.sends| && w.sends[i].pid == q;
      assert w'.sends[i] == w.sends[i];
    }
    if Sent(w', q) {
      var i :| 0 <= i < |w'.sends| && w'.sends[i].pid == q;
      assert w'.sends[i] == w.sends[i];
    }
  }

  /** `w'` is reached from `w` by a step of job `p` that may take or drop the lease,
      append a write while it holds it, and send one request. */
  predicate MovesJob(w: World, w': World, p: Pid)
  {
    && Extends(w, w')
    && p in w'.jobs && w'.jobs == w.jobs[p := w'.jobs[p]]
    && (p in w.jobs ==> w'.jobs[p].tokens == w.jobs[p].tokens && w'.jobs[p].started == w.jobs[p].started)
    && (w'.lease == w.lease || (w.lease == None && w'.lease == Some(p)) || (w.lease == Some(p) && w'.lease == None))
    && (w'.log == w.log || w.lease == Some(p))
    && (w'.sends == w.sends || (|w'.sends| == |w.sends| + 1 && w'.sends[|w.sends|].pid == p))
  }

  lemma JobsFrame(w: World, w': World, p: Pid)
    requires JobsInv(w) && MovesJob(w, w', p) && JobInv(w', p, w'.jobs[p])
    ensures JobsInv(w')
  {
    forall q | q in w'.jobs
      ensures JobInv(w', q, w'.jobs[q])
    {
      if q != p {
        SentFrame(w, w', q, p);
        JobFrame(w, w', q, w.jobs[q]);
      }
    }
  }

  lemma SendsFrame(w: World, w': World, p: Pid)
    requires SendsInv(w) && MovesJob(w, w', p)
    requires w'.sends != w.sends ==> SendInv(w', w'.sends[|w.sends|]) && !Sent(w, p)
    ensures SendsInv(w')
  {
    forall i | 0 <= i < |w'.sends|
      ensures SendInv(w', w'.sends[i])
    {
      if i < |w.sends| {
        assert w'.sends[i] == w.sends[i];
        SendFrame(w, w', w.sends[i]);
      }
    }
    forall i, j | 0 <= i < j < |w'.sends|
      ensures w'.sends[i].pid != w'.sends[j].pid
    {
      assert w'.sends[i] == w.sends[i];
      if j < |w.sends| {
        assert w'.sends[j] == w.sends[j];
      }
    }
  }

  lemma LogFrame(w: World, w': World)
    requires LogInv(w) && Extends(w, w')
    requires forall k :: |w.log| <= k < |w'.log| ==> WriteInv(w', k)
    ensures LogInv(w')
  {
    forall k | 0 <= k < |w'.log|
      ensures WriteInv(w', k)
    {
      if k < |w.log| {
        WriteFrame(w, w', k);
      }
    }
  }

  /** A job that has not been spawned has sent nothing. */
  lemma UnknownNotSent(w: World, p: Pid)
    requires SendsInv(w) && p !in w.jobs
    ensures !Sent(w, p)
  {
    forall i | 0 <= i < |w.sends|
      ensures w.sends[i].pid != p
    {
      assert SendInv(w, w.sends[i]);
    }
  }

  lemma AssembleInv(w: World, w': World, p: Pid)
    requires Inv(w) && MovesJob(w, w', p)
    requires StoreInv(w') && JobInv(w', p, w'.jobs[p])
    requires w'.sends != w.sends ==> SendInv(w', w'.sends[|w.sends|]) && !Sent(w, p)
    requires forall k :: |w.log| <= k < |w'.log| ==> WriteInv(w', k)
    ensures Inv(w')
  {
    JobsFrame(w, w', p);
    SendsFrame(w, w', p);
    LogFrame(w, w');
  }

  /** What a step of job `p` must see to that appends neither a write nor a request. */
  predicate Fits(w: World, p: Pid, j: Job, lease: Option<Pid>)
  {
    && (p in w.jobs ==> j.tokens == w.jobs[p].tokens && j.started == w.jobs[p].started)
    && (lease == w.lease || (w.lease == None && lease == Some(p)) || (w.lease == Some(p) && lease == None))
    && ControlInv(w.provider, lease == Some(p), j) && PaceInv(w.now, j) && HistoryInv(w, p, j)
  }

  lemma MoveInv(w: World, p: Pid, j: Job, lease: Option<Pid>)
    requires Inv(w) && Fits(w, p, j, lease)
    ensures Inv(Move(w, p, j, lease))
  {
    var w' := Move(w, p, j, lease);
    assert Extends(w, w');
    HistoryFrame(w, w', p, j);
    AssembleInv(w, w', p);
  }

  lemma HistoryFrame(w: World, w': World, p: Pid, j: Job)
    requires w.log == w'.log && w.sends == w'.sends && w.opening == w'.opening
    requires w.provider == w'.provider && w.useKeychain == w'.useKeychain
    requires HistoryInv(w, p, j)
    ensures HistoryInv(w', p, j)
  {
    if (j.phase.Releasing? || j.phase.Finished?) && j.phase.outcome.Some?
       && HeldSince(w, j.loadedAt, j.phase.outcome.value) {
      var k: nat :| j.loadedAt <= k <= |w.log| && ValueAt(w, k) == Present(j.phase.outcome.value);
      assert ValueAt(w', k) == ValueAt(w, k);
    }
    assert ValueAt(w', j.loadedAt) == ValueAt(w, j.loadedAt);
    assert Sent(w', p) == Sent(w, p);
  }

  lemma SpawnInv(w: World, p: Pid, tokens: Tokens)
    requires Inv(w) && p !in w.jobs
    ensures Inv(Move(w, p, NewJob(w, tokens), w.lease))
  {
    UnknownNotSent(w, p);
    MoveInv(w, p, NewJob(w, tokens), w.lease);
  }

  /** The step is a move of its job alone, and fits. */
  predicate FitsMove(w: World, v: World, p: Pid)
  {
    p in v.jobs && v == Move(w, p, v.jobs[p], v.lease) && Fits(w, p, v.jobs[p], v.lease)
  }

  lemma BeginFits(w: World, p: Pid, ready: bool)
    requires In(w, p, Created) && JobInv(w, p, w.jobs[p])
    ensures FitsMove(w, BeginStep(w, p, ready), p)
  {
  }

  lemma CheckFits(w: World, p: Pid)
    requires In(w, p, Checking) && JobInv(w, p, w.jobs[p])
    ensures FitsMove(w, CheckStep(w, p), p)
  {
  }

  lemma AcquireFits(w: World, p: Pid, broken: bool)
    requires p in w.jobs && w.jobs[p].phase.Acquiring? && JobInv(w, p, w.jobs[p])
    ensures FitsMove(w, AcquireStep(w, p, broken), p)
  {
  }

  lemma WakeFits(w: World, p: Pid)
    requires p in w.jobs && w.jobs[p].phase.Sleeping? && w.now >= w.jobs[p].phase.until && JobInv(w, p, w.jobs[p])
    ensures FitsMove(w, Goto(w, p, Checking), p)
  {
  }

  lemma ProceedFits(w: World, p: Pid, phase: Phase)
    requires In(w, p, Leased) && phase in {Releasing(None), Loading} && JobInv(w, p, w.jobs[p])
    ensures FitsMove(w, Goto(w, p, phase), p)
  {
  }

  lemma LoadFits(w: World, p: Pid, retrieved: bool, broken: bool)
    requires In(w, p, Loading) && JobInv(w, p, w.jobs[p]) && StoreInv(w)
    ensures FitsMove(w, LoadStep(w, p, retrieved, broken), p)
  {
    assert ValueAt(w, |w.log|) == Current(w);
    LoadMisreadsIff(w.provider, w.useKeychain, w.backends, retrieved);
  }

  lemma AnswerFits(w: World, p: Pid, reply: ExchangeReply)
    requires In(w, p, Exchanging) && JobInv(w, p, w.jobs[p])
    ensures FitsMove(w, AnswerStep(w, p, reply), p)
  {
  }

  lemma WinnerFits(w: World, p: Pid, retrieved: bool, broken: bool, wallMs: int)
    requires In(w, p, Superseded) && JobInv(w, p, w.jobs[p]) && StoreInv(w)
    ensures FitsMove(w, WinnerStep(w, p, retrieved, broken, wallMs), p)
  {
    assert ValueAt(w, |w.log|) == Current(w);
    LoadMisreadsIff(w.provider, w.useKeychain, w.backends, retrieved);
  }

  lemma ReleaseFits(w: World, p: Pid)
    requires p in w.jobs && w.jobs[p].phase.Releasing? && JobInv(w, p, w.jobs[p])
    ensures FitsMove(w, ReleaseStep(w, p), p)
  {
  }

  lemma CallerFits(w: World, p: Pid, e: Event)
    requires Enabled(w, e) && (e == Resume(p) || e == Cancel(p)) && JobInv(w, p, w.jobs[p])
    ensures FitsMove(w, Step(w, e), p)
  {
  }

  /** A job that sends no request makes do with what it loaded, or with nothing. */
  lemma SettleFits(w: World, p: Pid, wallMs: int, broken: bool)
    requires p in w.jobs && w.jobs[p].phase.Deciding? && JobInv(w, p, w.jobs[p])
    ensures var v := DecideStep(w, p, wallMs, broken);
            v.jobs[p].phase.Exchanging? || FitsMove(w, v, p)
  {
  }

  /** The request goes out: the reloaded snapshot is still undisturbed by refreshes. */
  lemma RequestInv(w: World, p: Pid, wallMs: int, broken: bool)
    requires Inv(w) && p in w.jobs && w.jobs[p].phase.Deciding?
    requires DecideStep(w, p, wallMs, broken).jobs[p].phase.Exchanging?
    ensures Inv(DecideStep(w, p, wallMs, broken))
  {
    var w' := DecideStep(w, p, wallMs, broken);
    assert JobInv(w, p, w.jobs[p]);
    assert w'.sends[|w.sends|].pid == p;
    assert SendInv(w', w'.sends[|w.sends|]);
    AssembleInv(w, w', p);
  }

  /** What the compare-and-swap does to the register and to the log. */
  lemma PublishEffect(w: World, p: Pid, retrieved: bool, o: Oracle)
    requires StoreInv(w) && p in w.jobs && w.jobs[p].phase.Publishing? && w.jobs[p].tokens.provider == w.provider
    ensures var w' := PublishStep(w, p, retrieved, o, false);
            && Extends(w, w') && StoreInv(w') && w'.sends == w.sends
            && (w'.log == w.log
                || (w'.log == w.log + [Refreshed(p, w.jobs[p].tokens, w.jobs[p].phase.refreshed)]
                    && Current(w) == Present(w.jobs[p].tokens)))
            && (w'.jobs[p].phase == Releasing(Some(w.jobs[p].phase.refreshed)) ==> w'.log != w.log)
  {
    var j := w.jobs[p];
    ApplyRefinesRegister(w.useKeychain, w.backends, SaveIfCurrent(j.tokens, j.phase.refreshed, retrieved, o));
    ApplyDescends(w.useKeychain, w.opening, w.backends, SaveIfCurrent(j.tokens, j.phase.refreshed, retrieved, o));
  }

  lemma PublishedWriteInv(w: World, w': World, p: Pid)
    requires Inv(w) && Extends(w, w') && w'.sends == w.sends && p in w.jobs && Sent(w, p)
    requires |w'.log| == |w.log| + 1 && w'.log[|w.log|].Refreshed? && w'.log[|w.log|].pid == p
    requires w'.log[|w.log|].expected == w.jobs[p].tokens && Current(w) == Present(w.jobs[p].tokens)
    ensures WriteInv(w', |w.log|)
  {
    var i :| 0 <= i < |w.sends| && w.sends[i].pid == p;
    assert SendInv(w, w.sends[i]);
    ValueStable(w, w', |w.log|);
    assert w'.sends[i].tokens == w.jobs[p].tokens && w'.sends[i].at <= |w.log|;
  }

  lemma BrokenCommitFits(w: World, p: Pid, retrieved: bool, o: Oracle)
    requires p in w.jobs && w.jobs[p].phase.Publishing? && JobInv(w, p, w.jobs[p])
    ensures FitsMove(w, PublishStep(w, p, retrieved, o, true), p)
  {
  }

  /** A refresh is published only over the snapshot it was computed from. */
  lemma CompareAndSwapInv(w: World, p: Pid, retrieved: bool, o: Oracle)
    requires Inv(w) && p in w.jobs && w.jobs[p].phase.Publishing? && JobInv(w, p, w.jobs[p])
    ensures Inv(PublishStep(w, p, retrieved, o, false))
  {
    var w' := PublishStep(w, p, retrieved, o, false);
    PublishEffect(w, p, retrieved, o);
    PublishJobInv(w, p, retrieved, o);
    if w'.log != w.log {
      PublishedWriteInv(w, w', p);
    }
    AssembleInv(w, w', p);
  }

  lemma PublishJobInv(w: World, p: Pid, retrieved: bool, o: Oracle)
    requires StoreInv(w) && p in w.jobs && w.jobs[p].phase.Publishing? && JobInv(w, p, w.jobs[p])
    ensures JobInv(PublishStep(w, p, retrieved, o, false), p, PublishStep(w, p, retrieved, o, false).jobs[p])
  {
    var w' := PublishStep(w, p, retrieved, o, false);
    PublishEffect(w, p, retrieved, o);
    assert Sent(w', p) == Sent(w, p);
    if w'.log != w.log {
      assert ValueAt(w', |w'.log|) == Present(w.jobs[p].phase.refreshed);
    }
  }

  lemma OutsideInv(w: World, op: Op)
    requires Inv(w) && !op.SaveIfCurrent? && Target(op) == w.provider
    ensures Inv(OutsideStep(w, op))
  {
    var w' := OutsideStep(w, op);
    ApplyDescends(w.useKeychain, w.opening, w.backends, op);
    if !Uncovers(w.useKeychain, w.backends, op) {
      ApplyRefinesRegister(w.useKeychain, w.backends, op);
    }
    assert ValueAt(w', |w.log|) == Current(w);
    BystanderInv(w, w');
  }

  /** Nobody's job moved and any write is external. */
  lemma BystanderInv(w: World, w': World)
    requires Inv(w) && Extends(w, w') && StoreInv(w')
    requires w'.jobs == w.jobs && w'.lease == w.lease && w'.sends == w.sends
    requires w'.now == w.now || w'.log == w.log
    requires forall k :: |w.log| <= k < |w'.log| ==> WriteInv(w', k) && w'.log[k].External?
    ensures Inv(w')
  {
    forall q | q in w'.jobs
      ensures JobInv(w', q, w'.jobs[q])
    {
      assert Sent(w', q) == Sent(w, q);
      JobFrame(w, w', q, w.jobs[q]);
    }
    forall i | 0 <= i < |w'.sends|
      ensures SendInv(w', w'.sends[i])
    {
      SendFrame(w, w', w.sends[i]);
    }
    LogFrame(w, w');
  }

  /** An event of a job that appends no request and no write. */
  predicate Short(w: World, e: Event)
  {
    && Enabled(w, e) && !e.Spawn? && !e.Outside? && !e.Tick? && (e.Publish? ==> e.broken)
    && (e.Decide? ==> !Step(w, e).jobs[e.p].phase.Exchanging?)
  }

  lemma ShortStepFits(w: World, e: Event)
    requires Short(w, e) && StoreInv(w) && JobInv(w, e.p, w.jobs[e.p])
    ensures FitsMove(w, Step(w, e), e.p)
  {
    match e {
      case Begin(p, ready) => BeginFits(w, p, ready);
      case Check(p) => CheckFits(w, p);
      case TryAcquire(p, broken) => AcquireFits(w, p, broken);
      case Wake(p) => WakeFits(w, p);
      case Proceed(p) => ProceedFits(w, p, if w.jobs[p].cancelled then Releasing(None) else Loading);
      case LoadCurrent(p, retrieved, broken) => LoadFits(w, p, retrieved, broken);
      case Answer(p, reply) => AnswerFits(w, p, reply);
      case LoadWinner(p, retrieved, broken, wallMs) => WinnerFits(w, p, retrieved, broken, wallMs);
      case Release(p) => ReleaseFits(w, p);
      case Resume(p) => CallerFits(w, p, e);
      case Cancel(p) => CallerFits(w, p, e);
      case Decide(p, wallMs, broken) => SettleFits(w, p, wallMs, broken);
      case Publish(p, retrieved, o, _) => BrokenCommitFits(w, p, retrieved, o);
    }
  }

  lemma TickInv(w: World, dt: real)
    requires Inv(w) && dt >= 0.0
    ensures Inv(w.(now := w.now + dt))
  {
    BystanderInv(w, w.(now := w.now + dt));
  }

  // ------------------------------------------------------- what a step leaves alone

  /** The step leaves the other jobs alone, and the start and the cancellation of this one. */
  predicate Moved(w: World, v: World, p: Pid)
  {
    && v.now >= w.now && p in v.jobs && v.jobs == w.jobs[p := v.jobs[p]]
    && (p in w.jobs ==> v.jobs[p].started == w.jobs[p].started && (w.jobs[p].cancelled ==> v.jobs[p].cancelled))
    && (v.jobs[p].loadedAt == |w.log| || (p in w.jobs && v.jobs[p].loadedAt == w.jobs[p].loadedAt))
    && Continues(w, v)
  }

  /** The store stays the same store, and its log grows. */
  predicate Continues(w: World, v: World)
  {
    && v.provider == w.provider && v.useKeychain == w.useKeychain && v.opening == w.opening
    && |w.log| <= |v.log|
  }

  lemma StepContinues(w: World, e: Event)
    ensures Continues(w, Step(w, e))
  {
    if Enabled(w, e) && !e.Outside? && !e.Tick? {
      StepMoves(w, e);
    }
  }

  lemma {:induction false} RunContinues(w: World, es: seq<Event>)
    ensures Continues(w, Run(w, es))
    decreases es
  {
    if es != [] {
      StepContinues(w, es[0]);
      RunContinues(Step(w, es[0]), es[1..]);
    }
  }

  /** No job's load is older than the job. */
  lemma {:induction false} LoadsLate(w: World, es: seq<Event>, p: Pid, n: nat)
    requires n <= |w.log| && (p in w.jobs ==> n <= w.jobs[p].loadedAt)
    ensures p in Run(w, es).jobs ==> n <= Run(w, es).jobs[p].loadedAt
    decreases es
  {
    if es != [] {
      var e := es[0];
      StepContinues(w, e);
      if Enabled(w, e) && !e.Outside? && !e.Tick? {
        StepMoves(w, e);
      }
      LoadsLate(Step(w, e), es[1..], p, n);
    }
  }

  lemma PublishMoves(w: World, p: Pid, retrieved: bool, o: Oracle, broken: bool)
    requires p in w.jobs && w.jobs[p].phase.Publishing?
    ensures Moved(w, PublishStep(w, p, retrieved, o, broken), p)
  {
  }

  lemma LoadMoves(w: World, p: Pid, retrieved: bool, broken: bool)
    requires In(w, p, Loading)
    ensures Moved(w, LoadStep(w, p, retrieved, broken), p)
  {
  }

  lemma WinnerMoves(w: World, p: Pid, retrieved: bool, broken: bool, wallMs: int)
    requires In(w, p, Superseded)
    ensures Moved(w, WinnerStep(w, p, retrieved, broken, wallMs), p)
  {
  }

  lemma DecideMoves(w: World, p: Pid, wallMs: int, broken: bool)
    requires p in w.jobs && w.jobs[p].phase.Deciding?
    ensures Moved(w, DecideStep(w, p, wallMs, broken), p)
  {
  }

  lemma LeasedStepMoves(w: World, e: Event)
    requires Enabled(w, e)
    requires e.LoadCurrent? || e.Decide? || e.Answer? || e.Publish? || e.LoadWinner? || e.Release?
    ensures Moved(w, Step(w, e), e.p)
  {
    match e {
      case LoadCurrent(p, retrieved, broken) => LoadMoves(w, p, retrieved, broken);
      case Decide(p, wallMs, broken) => DecideMoves(w, p, wallMs, broken);
      case Publish(p, retrieved, o, broken) => PublishMoves(w, p, retrieved, o, broken);
      case LoadWinner(p, retrieved, broken, wallMs) => WinnerMoves(w, p, retrieved, broken, wallMs);
      case _ =>
    }
  }

  lemma BeginMoves(w: World, p: Pid, ready: bool)
    requires In(w, p, Created)
    ensures Moved(w, BeginStep(w, p, ready), p)
  {
  }

  lemma CheckMoves(w: World, p: Pid)
    requires In(w, p, Checking)
    ensures Moved(w, CheckStep(w, p), p)
  {
  }

  lemma AcquireMoves(w: World, p: Pid, broken: bool)
    requires p in w.jobs && w.jobs[p].phase.Acquiring?
    ensures Moved(w, AcquireStep(w, p, broken), p)
  {
  }

  lemma WaitingStepMoves(w: World, e: Event)
    requires Enabled(w, e) && (e.Begin? || e.Check? || e.TryAcquire?)
    ensures Moved(w, Step(w, e), e.p)
  {
    match e {
      case Begin(p, ready) => BeginMoves(w, p, ready);
      case Check(p) => CheckMoves(w, p);
      case TryAcquire(p, broken) => AcquireMoves(w, p, broken);
    }
  }

  lemma SpawnMoves(w: World, p: Pid, tokens: Tokens)
    requires Enabled(w, Spawn(p, tokens))
    ensures Moved(w, Step(w, Spawn(p, tokens)), p)
  {
  }

  lemma ShortStepMoves(w: World, e: Event)
    requires Enabled(w, e) && (e.Wake? || e.Proceed? || e.Resume? || e.Cancel?)
    ensures Moved(w, Step(w, e), e.p)
  {
  }

  lemma StepMoves(w: World, e: Event)
    requires Enabled(w, e) && !e.Outside? && !e.Tick?
    ensures Moved(w, Step(w, e), e.p)
  {
    if e.LoadCurrent? || e.Decide? || e.Answer? || e.Publish? || e.LoadWinner? || e.Release? {
      LeasedStepMoves(w, e);
    } else if e.Wake? || e.Proceed? || e.Resume? || e.Cancel? {
      ShortStepMoves(w, e);
    } else if e.Spawn? {
      SpawnMoves(w, e.p, e.tokens);
    } else {
      WaitingStepMoves(w, e);
    }
  }

  /** Only a decision sends, and only for a job that is not barred. */
  lemma StepSends(w: World, e: Event)
    ensures var v := Step(w, e);
            v.sends == w.sends
            || (e.Decide? && e.p in w.jobs && !Barred(w, e.p) && v.sends[..|w.sends|] == w.sends
                && |v.sends| == |w.sends| + 1 && v.sends[|w.sends|].pid == e.p)
  {
    if Enabled(w, e) && e.Decide? {
      assert Step(w, e) == DecideStep(w, e.p, e.wallMs, e.broken);
    }
  }

  // ------------------------------------------------------ own events make progress

  lemma PublishAdvances(w: World, p: Pid, retrieved: bool, o: Oracle, broken: bool)
    requires p in w.jobs && w.jobs[p].phase.Publishing?
    ensures var w' := PublishStep(w, p, retrieved, o, broken);
            p in w'.jobs && StepsLeft(w'.jobs[p].phase) < 3
  {
  }

  lemma DecideAdvances(w: World, p: Pid, wallMs: int, broken: bool)
    requires p in w.jobs && w.jobs[p].phase.Deciding?
    ensures var w' := DecideStep(w, p, wallMs, broken);
            p in w'.jobs && StepsLeft(w'.jobs[p].phase) < 5
  {
  }

  lemma LoadsAdvance(w: World, p: Pid, retrieved: bool, broken: bool, wallMs: int)
    ensures In(w, p, Loading) ==>
      p in LoadStep(w, p, retrieved, broken).jobs && LoadStep(w, p, retrieved, broken).jobs[p].phase.Deciding? != broken
      && StepsLeft(LoadStep(w, p, retrieved, broken).jobs[p].phase) < 6
    ensures In(w, p, Superseded) ==>
      p in WinnerStep(w, p, retrieved, broken, wallMs).jobs
      && WinnerStep(w, p, retrieved, broken, wallMs).jobs[p].phase.Releasing?
  {
  }

  lemma OwnEventAdvances(w: World, p: Pid, e: Event)
    requires p in w.jobs && OwnEvent(e, p) && Enabled(w, e)
    ensures p in Step(w, e).jobs && StepsLeft(Step(w, e).jobs[p].phase) < StepsLeft(w.jobs[p].phase)
  {
    if e.Publish? {
      PublishAdvances(w, p, e.retrieved, e.o, e.broken);
    } else if e.Decide? {
      DecideAdvances(w, p, e.wallMs, e.broken);
    } else if e.LoadCurrent? {
      LoadsAdvance(w, p, e.retrieved, e.broken, 0);
    } else if e.LoadWinner? {
      LoadsAdvance(w, p, e.retrieved, e.broken, e.wallMs);
    } else {
      ShortMoveAdvances(w, p, e);
    }
  }

  lemma ShortMoveAdvances(w: World, p: Pid, e: Event)
    requires p in w.jobs && OwnEvent(e, p) && Enabled(w, e) && (e.Proceed? || e.Answer? || e.Release?)
    ensures p in Step(w, e).jobs && StepsLeft(Step(w, e).jobs[p].phase) < StepsLeft(w.jobs[p].phase)
  {
  }
}
