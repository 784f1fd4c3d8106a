/** Stretches of runs of the refresh protocol, from the start of a job to its decision and
    from its release to the caller. */
module RefreshRuns {
  import opened Prelude
  import opened TokenStore
  import opened RefreshProtocol
  import P = RefreshProtocol

  lemma StepThenRun(w: World, e: Event, es: seq<Event>)
    ensures P.Run(w, [e] + es) == P.Run(P.Step(w, e), es)
  {
    assert ([e] + es)[0] == e && ([e] + es)[1..] == es;
  }

  /** A job from its start to its decision. */
  function UpToDecision(p: Pid, tokens: Tokens, retrieved: bool, wallMs: int): seq<Event>
  {
    [Spawn(p, tokens)] + ([Begin(p, true)] + ([Check(p)] + ([TryAcquire(p, false)] + ([Proceed(p)] +
      ([LoadCurrent(p, retrieved, false)] + ([Decide(p, wallMs, false)] + []))))))
  }

  function JobUnderLease(w: World, tokens: Tokens): Job
  {
    NewJob(w, tokens).(phase := Leased, attempts := 1)
  }

  /** Where the job stands when it has loaded the store. */
  function Opened(w: World, p: Pid, tokens: Tokens, retrieved: bool): World
  {
    var job := JobUnderLease(w, tokens)
               .(phase := Deciding(Load(w.provider, w.useKeychain, w.backends, false, retrieved).tokens),
                 misread := Misreads(w.provider, w.useKeychain, w.backends, retrieved));
    w.(jobs := w.jobs[p := job], lease := Some(p))
  }

  /** Nobody is refreshing, and `p` may start. */
  predicate Idle(w: World, p: Pid, tokens: Tokens)
  {
    p !in w.jobs && w.lease == None && tokens.provider == w.provider && ValidProvider(w.provider)
  }

  lemma StartUntilLease(w: World, p: Pid, tokens: Tokens)
    requires Idle(w, p, tokens)
    ensures var v := P.Step(P.Step(P.Step(P.Step(w, Spawn(p, tokens)), Begin(p, true)), Check(p)), TryAcquire(p, false));
            v == w.(jobs := w.jobs[p := JobUnderLease(w, tokens)], lease := Some(p))
  {
    var job := NewJob(w, tokens);
    var w1 := P.Step(w, Spawn(p, tokens));
    assert w1 == w.(jobs := w.jobs[p := job]);
    var w2 := P.Step(w1, Begin(p, true));
    assert w2 == w.(jobs := w.jobs[p := job.(phase := Checking)]);
    var w3 := P.Step(w2, Check(p));
    assert w3 == w.(jobs := w.jobs[p := job.(phase := Acquiring(REFRESH_TIMEOUT_SECONDS), attempts := 1)]);
  }

  /** A fresh job gets the free lease and loads the store. */
  lemma StartUntilLoaded(w: World, p: Pid, tokens: Tokens, retrieved: bool, wallMs: int)
    requires Idle(w, p, tokens)
    ensures P.Run(w, UpToDecision(p, tokens, retrieved, wallMs)) ==
      P.Step(Opened(w, p, tokens, retrieved), Decide(p, wallMs, false))
  {
    var e7 := [Decide(p, wallMs, false)] + [];
    var e6 := [LoadCurrent(p, retrieved, false)] + e7;
    var e5 := [Proceed(p)] + e6;
    var e4 := [TryAcquire(p, false)] + e5;
    var e3 := [Check(p)] + e4;
    var e2 := [Begin(p, true)] + e3;
    var w1 := P.Step(w, Spawn(p, tokens));
    var w2 := P.Step(w1, Begin(p, true));
    var w3 := P.Step(w2, Check(p));
    var w4 := P.Step(w3, TryAcquire(p, false));
    StepThenRun(w, Spawn(p, tokens), e2);
    StepThenRun(w1, Begin(p, true), e3);
    StepThenRun(w2, Check(p), e4);
    StepThenRun(w3, TryAcquire(p, false), e5);
    StartUntilLease(w, p, tokens);
    StepThenRun(w4, Proceed(p), e6);
    LeasedUntilLoaded(w, p, tokens, retrieved);
    StepThenRun(P.Step(w4, Proceed(p)), LoadCurrent(p, retrieved, false), e7);
    StepThenRun(Opened(w, p, tokens, retrieved), Decide(p, wallMs, false), []);
  }

  lemma LeasedUntilLoaded(w: World, p: Pid, tokens: Tokens, retrieved: bool)
    ensures var leased := w.(jobs := w.jobs[p := JobUnderLease(w, tokens)], lease := Some(p));
            P.Step(P.Step(leased, Proceed(p)), LoadCurrent(p, retrieved, false)) == Opened(w, p, tokens, retrieved)
  {
  }

  /** A job that finds other credentials, still valid, settles for them. */
  lemma SettlesFor(w: World, p: Pid, tokens: Tokens, retrieved: bool, wallMs: int, found: Tokens)
    requires Load(w.provider, w.useKeychain, w.backends, false, retrieved).tokens == Some(found)
    requires found != tokens && !Expired(found, wallMs)
    ensures var v := Opened(w, p, tokens, retrieved);
            P.Step(v, Decide(p, wallMs, false)) == Goto(v, p, Releasing(Some(found)))
  {
  }

  /** A job that finds its own snapshot sends its request. */
  lemma SendsFor(w: World, p: Pid, tokens: Tokens, retrieved: bool)
    requires Load(w.provider, w.useKeychain, w.backends, false, retrieved).tokens == Some(tokens)
    ensures var v := Opened(w, p, tokens, retrieved);
            P.Step(v, Decide(p, 0, false)) ==
              Move(v, p, v.jobs[p].(phase := Exchanging, sent := true), v.lease)
              .(sends := w.sends + [Send(p, tokens, |w.log|, |w.log|, w.now, v.jobs[p].misread)])
  {
  }

  lemma ReleasesAndReturns(w: World, p: Pid, found: Tokens)
    requires In(w, p, Releasing(Some(found))) && w.jobs[p].caller.Waiting?
    ensures P.Run(w, [Release(p)] + ([Resume(p)] + [])) ==
      Move(w, p, w.jobs[p].(phase := Finished(Some(found)), caller := Resumed(Some(found))), None)
  {
    var released := Move(w, p, w.jobs[p].(phase := Finished(Some(found))), None);
    Releases(w, p, found);
    Returned(released, p, found);
    StepThenRun(w, Release(p), [Resume(p)] + []);
    StepThenRun(released, Resume(p), []);
  }

  lemma Releases(w: World, p: Pid, found: Tokens)
    requires In(w, p, Releasing(Some(found)))
    ensures P.Step(w, Release(p)) == Move(w, p, w.jobs[p].(phase := Finished(Some(found))), None)
  {
  }

  lemma Returned(w: World, p: Pid, found: Tokens)
    requires In(w, p, Finished(Some(found))) && w.jobs[p].caller.Waiting?
    ensures P.Step(w, Resume(p)) == Move(w, p, w.jobs[p].(caller := Resumed(Some(found))), w.lease)
  {
  }
}
