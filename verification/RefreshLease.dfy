/** The sequential parts of a refresh job in koder_agent/auth/client_integration.py as they
    are written: the lease loop of _refresh_under_lease and _commit_refresh. What the
    protocol does with them in every interleaving is in RefreshProtocol. */
module RefreshLease {
  import opened Prelude
  import opened TokenStore
  import P = RefreshProtocol

  /** What the loop meets in its k-th round: the cancellation flag, the clock, whether trying
      the lock raises something other than its timeout, and whether it is free. */
  datatype Rounds = Rounds(cancelled: nat -> bool, clock: nat -> real, broken: nat -> bool, free: nat -> bool)

  datatype LeaseResult = Leased | Cancelled | TimedOut | LockFailed

  function Pause(deadline: real, now: real): real
  {
    P.Min(P.LOCK_POLL_SECONDS, deadline - now)
  }

  /** The loop starts within the timeout of its deadline, and every sleep takes at least as
      long as it was asked to. */
  ghost predicate ClockAdvances(e: Rounds, deadline: real)
  {
    && e.clock(0) >= deadline - P.REFRESH_TIMEOUT_SECONDS
    && forall k: nat :: e.clock(k) < deadline ==> e.clock(k + 1) >= e.clock(k) + Pause(deadline, e.clock(k))
  }

  /** Round k ends the loop. */
  predicate Ends(e: Rounds, deadline: real, k: nat)
  {
    e.cancelled(k) || e.clock(k) >= deadline || e.broken(k) || e.free(k)
  }

  function ResultOf(e: Rounds, deadline: real, k: nat): LeaseResult
  {
    if e.cancelled(k) then Cancelled
    else if e.clock(k) >= deadline then TimedOut
    else if e.broken(k) then LockFailed
    else Leased
  }

  /** After k sleeps at least k polling intervals have passed, or the deadline has. */
  lemma {:induction false} SleepsAddUp(e: Rounds, deadline: real, k: nat)
    requires ClockAdvances(e, deadline)
    requires forall j :: 0 <= j < k ==> e.clock(j) < deadline
    ensures e.clock(k) >= deadline || e.clock(k) >= deadline - P.REFRESH_TIMEOUT_SECONDS + 0.05 * k as real
    decreases k
  {
    if k > 0 {
      SleepsAddUp(e, deadline, k - 1);
      assert e.clock(k - 1) < deadline;
      assert e.clock(k - 1 + 1) >= e.clock(k - 1) + Pause(deadline, e.clock(k - 1));
    }
  }

  /** The round in which the loop stopped. */
  function LastRound(r: LeaseResult, attempts: nat): nat
  {
    if (r.Leased? || r.LockFailed?) && attempts > 0 then attempts - 1 else attempts
  }

  /** The loop stops in the first round that ends it, for that round's reason, and within
      600 attempts on the lock. */
  method AcquireLease(e: Rounds, deadline: real) returns (r: LeaseResult, attempts: nat)
    requires ClockAdvances(e, deadline)
    ensures attempts <= P.MAX_ATTEMPTS && (r.Leased? || r.LockFailed? ==> attempts > 0)
    ensures Ends(e, deadline, LastRound(r, attempts)) && r == ResultOf(e, deadline, LastRound(r, attempts))
    ensures forall j :: 0 <= j < LastRound(r, attempts) ==> !Ends(e, deadline, j)
  {
    var acquired := false;
    attempts, r := 0, Leased;
    while !acquired
      invariant attempts <= P.MAX_ATTEMPTS && r == Leased
      invariant !acquired ==> forall j :: 0 <= j < attempts ==> !Ends(e, deadline, j)
      invariant acquired ==>
        && attempts > 0 && Ends(e, deadline, attempts - 1) && ResultOf(e, deadline, attempts - 1) == Leased
        && forall j :: 0 <= j < attempts - 1 ==> !Ends(e, deadline, j)
      decreases !acquired, P.MAX_ATTEMPTS - attempts
    {
      if e.cancelled(attempts) {
        return Cancelled, attempts;
      }
      var remaining := deadline - e.clock(attempts);
      if remaining <= 0.0 {
        return TimedOut, attempts;
      }
      forall j | 0 <= j < attempts ensures e.clock(j) < deadline {
        assert !Ends(e, deadline, j);
      }
      SleepsAddUp(e, deadline, attempts);
      if e.broken(attempts) {
        return LockFailed, attempts + 1;
      }
      acquired := e.free(attempts);
      attempts := attempts + 1;
    }
  }

  /** The protocol meets what round k of the loop meets. */
  predicate Meets(e: Rounds, k: nat, w: P.World, p: P.Pid)
  {
    && P.In(w, p, P.Checking) && e.cancelled(k) == w.jobs[p].cancelled && e.clock(k) == w.now
    && (e.free(k) <==> w.lease == None)
  }

  /** A round of this loop is two events of the protocol. One ends the job without an attempt
      for a cancellation or a passed deadline. */
  lemma RoundStopsAtCheck(e: Rounds, k: nat, w: P.World, p: P.Pid)
    requires Meets(e, k, w, p)
    ensures var v := P.Step(w, P.Check(p));
            var r := ResultOf(e, P.Deadline(w.jobs[p]), k);
            && p in v.jobs && v.lease == w.lease
            && v.jobs[p].phase == (if r.Cancelled? || r.TimedOut? then P.Finished(None)
                                   else P.Acquiring(P.Deadline(w.jobs[p]) - w.now))
            && v.jobs[p].attempts == w.jobs[p].attempts + (if r.Cancelled? || r.TimedOut? then 0 else 1)
  {
  }

  /** The other takes the lease or ends the job where this loop ends, and otherwise sleeps
      for the same time. */
  lemma RoundTriesOnce(e: Rounds, k: nat, w: P.World, p: P.Pid, deadline: real)
    requires p in w.jobs && w.jobs[p].phase == P.Acquiring(deadline - w.now)
    requires e.clock(k) == w.now < deadline && !e.cancelled(k) && (e.free(k) <==> w.lease == None)
    ensures var v := P.Step(w, P.TryAcquire(p, e.broken(k)));
            && p in v.jobs
            && v.jobs[p].phase == (if !Ends(e, deadline, k) then P.Sleeping(w.now + Pause(deadline, w.now))
                                   else if ResultOf(e, deadline, k).Leased? then P.Leased
                                   else P.Finished(None))
            && (v.jobs[p].phase == P.Leased ==> v.lease == Some(p))
  {
  }

  /** The provider's copies after other callers' operations. */
  function Others(useKeychain: bool, b: Backends, ops: seq<Op>): Backends
    decreases ops
  {
    if ops == [] then b else Others(useKeychain, Apply(useKeychain, b, ops[0]).after, ops[1..])
  }

  method PlayOthers(storage: TokenStorage, provider: string, ops: seq<Op>)
    modifies storage
    ensures Slot(storage.slots, provider) == Others(storage.useKeychain, Slot(old(storage.slots), provider), ops)
    ensures forall p :: p != provider ==> Slot(storage.slots, p) == Slot(old(storage.slots), p)
  {
    for i := 0 to |ops|
      invariant Others(storage.useKeychain, Slot(storage.slots, provider), ops[i..]) ==
                Others(storage.useKeychain, Slot(old(storage.slots), provider), ops)
      invariant forall p :: p != provider ==> Slot(storage.slots, p) == Slot(old(storage.slots), p)
    {
      assert ops[i..][1..] == ops[i + 1..];
      storage.slots := storage.slots[provider := Apply(storage.useKeychain, Slot(storage.slots, provider), ops[i]).after];
    }
  }

  /** What a tolerant load finds, if it has not expired. */
  function Reused(provider: string, useKeychain: bool, b: Backends, reread: bool, wallMs: int): (t: Option<Tokens>)
    ensures t.Some? ==> wallMs < t.value.expiresAt - 60000 && t.value.provider == provider
    ensures reread && !b.keychain.Undecodable? ==>
      (t.Some? <==> Read(provider, useKeychain, b).Present? && wallMs < Read(provider, useKeychain, b).tokens.expiresAt - 60000)
    ensures reread && t.Some? && !b.keychain.Undecodable? ==> Read(provider, useKeychain, b) == Present(t.value)
  {
    var t := Load(provider, useKeychain, b, false, reread).tokens;
    if t.Some? && !P.Expired(t.value, wallMs) then t else None
  }

  /** The commit is two events of the protocol: the compare-and-swap decides the outcome where
      this method returns or raises at it, and otherwise the job reuses the winner. */
  lemma CommitIsTwoEvents(w: P.World, p: P.Pid, retrieved: bool, o: Oracle, reread: bool, wallMs: int)
    requires p in w.jobs && w.jobs[p].phase.Publishing? && w.jobs[p].tokens.provider == w.provider
    ensures var a := Apply(w.useKeychain, w.backends, SaveIfCurrent(w.jobs[p].tokens, w.jobs[p].phase.refreshed, retrieved, o));
            var v := P.Step(w, P.Publish(p, retrieved, o, false));
            && v.backends == a.after && p in v.jobs
            && v.jobs[p].phase == match a.reply
                 case Raised => P.Releasing(None)
                 case Returned(true) => P.Releasing(Some(w.jobs[p].phase.refreshed))
                 case Returned(false) => P.Superseded
    ensures forall v: P.World :: P.In(v, p, P.Superseded) ==>
      P.In(P.Step(v, P.LoadWinner(p, reread, false, wallMs)), p,
           P.Releasing(Reused(v.provider, v.useKeychain, v.backends, reread, wallMs)))
  {
  }

  /** _commit_refresh: the result is published over the snapshot it was computed from or
      not at all, and otherwise a concurrent winner is reused if it is still valid. Between
      the two store calls others may write, as `between` says. */
  method CommitRefresh(storage: TokenStorage, provider: string, previous: Tokens, refreshed: Tokens,
                       retrieved: bool, o: Oracle, between: seq<Op>, reread: bool, wallMs: int)
    returns (r: Result<Option<Tokens>, string>)
    modifies storage
    ensures
      var before, after := Slot(old(storage.slots), provider), Slot(storage.slots, provider);
      var a := Apply(storage.useKeychain, before, SaveIfCurrent(previous, refreshed, retrieved, o));
      if previous.provider != provider || refreshed.provider != provider then r.Failure? && after == before
      else if a.reply.Raised? then r.Failure? && after == a.after
      else if a.reply == Returned(true) then
        && r == Success(Some(refreshed)) && after == a.after
        && Read(provider, storage.useKeychain, before) == Present(previous)
        && Read(provider, storage.useKeychain, after) == Present(refreshed)
      else
        && a.after == before && after == Others(storage.useKeychain, before, between)
        && r == Success(Reused(provider, storage.useKeychain, after, reread, wallMs))
    ensures forall p :: p != provider ==> Slot(storage.slots, p) == Slot(old(storage.slots), p)
  {
    if previous.provider != provider || refreshed.provider != previous.provider {
      return Failure("Refresh token provider mismatch");
    }
    var saved := storage.SaveTokensIfCurrent(previous, refreshed, retrieved, o);
    match saved {
      case Raised =>
        return Failure("save_if_current");
      case Returned(true) =>
        return Success(Some(refreshed));
      case Returned(false) =>
    }
    PlayOthers(storage, provider, between);
    var current := storage.LoadTokens(provider, false, reread);
    if current.LoadRaised? {
      return Failure("load");
    }
    if current.tokens.Some? && !P.Expired(current.tokens.value, wallMs) {
      return Success(current.tokens);
    }
    return Success(None);
  }
}
