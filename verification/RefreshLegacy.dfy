/** What an unmarked token file of an older release does to the refresh protocol: which
    stores, as they are before the first event, let a promise of the protocol fail. */
module RefreshLegacy {
  import opened Prelude
  import opened TokenStore
  import opened RefreshProtocol
  import opened RefreshRuns
  import P = RefreshProtocol

  // ------------------------------------------------------------ how promises fail

  predicate Returns(w: World, es: seq<Event>, p: Pid, t: Tokens)
  {
    p in P.Run(w, es).jobs && P.Run(w, es).jobs[p].caller == Resumed(Some(t))
  }

  /** A caller is handed credentials that the register never held. */
  predicate NeverHeld(w: World, es: seq<Event>, p: Pid, t: Tokens)
  {
    Returns(w, es, p, t) && !WasHeld(P.Run(w, es), t)
  }

  /** A caller is handed credentials that the register did not hold since its job was
      spawned, which is after `before`. */
  predicate Outdated(w: World, before: seq<Event>, after: seq<Event>, p: Pid, t: Tokens)
  {
    && p !in P.Run(w, before).jobs && Returns(w, before + after, p, t)
    && !HeldSince(P.Run(w, before + after), |P.Run(w, before).log|, t)
  }

  /** Request `i` carries a snapshot that write `k` replaced by another and that was not
      put back since. */
  predicate Resends(w: World, es: seq<Event>, k: nat, i: nat)
  {
    var v := P.Run(w, es);
    && k < |v.log| && v.log[k].Refreshed? && v.log[k].result != v.log[k].expected
    && i < |v.sends| && v.sends[i].tokens == v.log[k].expected && k < v.sends[i].at
    && forall m: nat :: k + 1 < m <= v.sends[i].at && m <= |v.log| ==> ValueAt(v, m) != Present(v.log[k].expected)
  }

  /** Something other than an explicit save puts credentials into a register without any. */
  predicate FillsUnasked(w: World, es: seq<Event>, k: nat)
  {
    var v := P.Run(w, es);
    && k < |v.log| && !ValueAt(v, k).Present? && ValueAt(v, k + 1).Present?
    && !(v.log[k].External? && v.log[k].op.Save?)
  }

  // --------------------------------------------------------------- theorems

  /** Exactly a legacy file hidden under another Keychain item can reach a caller without
      ever having been the register's value. */
  lemma OutcomesAreStoredIff(w: World)
    requires Initial(w)
    ensures (exists es, p, t :: NeverHeld(w, es, p, t)) <==>
      w.useKeychain && ValidProvider(w.provider) && HidesLegacyFile(w.provider, w.backends)
  {
    if w.useKeychain && ValidProvider(w.provider) && HidesLegacyFile(w.provider, w.backends) {
      var stale := w.backends.file.tokens;
      HandsOut(w, 0, Other(stale), stale);
      RunContinues(w, HandOut(0, Other(stale), stale));
      assert NeverHeld(w, HandOut(0, Other(stale), stale), 0, stale);
    } else {
      forall es, p, t | Returns(w, es, p, t)
        ensures WasHeld(P.Run(w, es), t)
      {
        assert [] + es == es;
        OutcomeWasStored(w, [], es, p);
        RunContinues(w, es);
        assert CanMisread(w) && w.backends.file == Record(t, false) ==> ValueAt(P.Run(w, es), 0) == Present(t);
      }
    }
  }

  /** Exactly a legacy file, hidden or not, can reach a caller after the register has
      moved on from it. */
  lemma OutcomesAreTimelyIff(w: World)
    requires Initial(w)
    ensures (exists before, after, p, t :: Outdated(w, before, after, p, t)) <==>
      w.useKeychain && ValidProvider(w.provider) && OwnLegacy(w.provider, w.backends)
  {
    if CanMisread(w) {
      HandsOutReplaced(w);
    } else {
      forall before, after, p, t | p !in P.Run(w, before).jobs && Returns(w, before + after, p, t)
        ensures HeldSince(P.Run(w, before + after), |P.Run(w, before).log|, t)
      {
        OutcomeWasStored(w, before, after, p);
      }
    }
  }

  /** Exactly such a file can make the refresh token of a replaced snapshot leave again. */
  lemma NothingIsResentIff(w: World)
    requires Initial(w)
    ensures (exists es, k, i :: Resends(w, es, k, i)) <==>
      w.useKeychain && ValidProvider(w.provider) && OwnLegacy(w.provider, w.backends)
  {
    if CanMisread(w) {
      var es := ResendRun(w, Other(w.backends.file.tokens));
    } else {
      forall es, k, i | Resends(w, es, k, i)
        ensures false
      {
        NoResendAfterCommit(w, es, k, i);
      }
    }
  }

  /** Only an explicit save fills an empty register, except exactly where a legacy file lies
      hidden and the register has no credentials to begin with. */
  lemma OnlySaveFillsIff(w: World)
    requires Initial(w)
    ensures (exists es, k :: FillsUnasked(w, es, k)) <==>
      && w.useKeychain && ValidProvider(w.provider) && HidesLegacyFile(w.provider, w.backends)
      && !Current(w).Present?
  {
    if CanFill(w) {
      LogoutFills(w);
      assert FillsUnasked(w, [Logout(w)], 0);
    } else {
      forall es, k | FillsUnasked(w, es, k)
        ensures false
      {
        StoreIsFilledIff(w, es, k);
      }
    }
  }

  // -------------------------------------------------------------- the failing runs

  /** Other credentials of the same provider. */
  function Other(t: Tokens): (r: Tokens)
    ensures r != t && r.provider == t.provider
  {
    assert |t.accessToken + "'"| != |t.accessToken|;
    t.(accessToken := t.accessToken + "'")
  }

  /** A job for other credentials meets the legacy file while the Keychain cannot be read,
      a moment before what it finds expires. */
  function HandOut(p: Pid, tokens: Tokens, stale: Tokens): seq<Event>
  {
    UpToDecision(p, tokens, false, stale.expiresAt - EXPIRY_BUFFER_MS - 1) + ([Release(p)] + ([Resume(p)] + []))
  }

  lemma HandsOut(w: World, p: Pid, tokens: Tokens, stale: Tokens)
    requires Idle(w, p, tokens) && w.useKeychain && w.backends.file == Record(stale, false)
    requires tokens != stale && stale.provider == w.provider
    ensures Returns(w, HandOut(p, tokens, stale), p, stale)
    ensures P.Run(w, HandOut(p, tokens, stale)).log == w.log
    ensures P.Run(w, HandOut(p, tokens, stale)).jobs[p].misread == Misreads(w.provider, true, w.backends, false)
  {
    var start, wallMs := UpToDecision(p, tokens, false, stale.expiresAt - EXPIRY_BUFFER_MS - 1),
                         stale.expiresAt - EXPIRY_BUFFER_MS - 1;
    StartUntilLoaded(w, p, tokens, false, wallMs);
    SettlesFor(w, p, tokens, false, wallMs, stale);
    RunThenRun(w, start, [Release(p)] + ([Resume(p)] + []));
    ReleasesAndReturns(P.Run(w, start), p, stale);
  }

  /** A login over the legacy file that reaches the Keychain but cannot remove the file. */
  function Login(t: Tokens): Event
  {
    Outside(Save(t, Oracle(Confirmed, false)))
  }

  lemma LoginKeepsTheFile(w: World, t: Tokens)
    requires w.useKeychain && ValidProvider(w.provider) && OwnLegacy(w.provider, w.backends) && t.provider == w.provider
    ensures var v := P.Step(w, Login(t));
            v == w.(backends := w.backends.(keychain := Item(t)),
                    log := w.log + [External(Login(t).op, Present(t), false)])
  {
  }

  /** After such a login the replaced file is still handed out. */
  lemma HandsOutReplaced(w: World)
    requires Initial(w) && CanMisread(w)
    ensures exists before, after, p, t :: Outdated(w, before, after, p, t)
  {
    var stale := w.backends.file.tokens;
    var renewed := Other(stale);
    var before, after := [Login(renewed)] + [], HandOut(0, renewed, stale);
    LoginKeepsTheFile(w, renewed);
    StepThenRun(w, Login(renewed), []);
    RunThenRun(w, before, after);
    HandsOut(P.Run(w, before), 0, renewed, stale);
    assert Outdated(w, before, after, 0, stale);
  }

  /** A logout that takes the Keychain item away and then fails. */
  function Logout(w: World): Event
  {
    Outside(Delete(w.provider, Oracle(Uncertain(true), true)))
  }

  lemma LogoutUncovers(w: World)
    requires w.useKeychain && ValidProvider(w.provider) && HidesLegacyFile(w.provider, w.backends)
    ensures P.Step(w, Logout(w)) ==
      w.(backends := w.backends.(keychain := NoItem),
         log := w.log + [External(Logout(w).op, Present(w.backends.file.tokens), true)])
  {
  }

  lemma LogoutFills(w: World)
    requires Initial(w) && CanFill(w)
    ensures FillsUnasked(w, [Logout(w)], 0)
  {
    LogoutUncovers(w);
    StepThenRun(w, Logout(w), []);
    assert [Logout(w)] + [] == [Logout(w)];
  }

  function Answered(p: Pid, renewed: Tokens): seq<Event>
  {
    [Answer(p, Granted(renewed))] + ([Publish(p, true, Oracle(Confirmed, false), false)] + ([Release(p)] + []))
  }

  /** The register holds the legacy file's credentials. */
  predicate OldIsCurrent(w: World, stale: Tokens)
  {
    && w.useKeychain && ValidProvider(w.provider) && stale.provider == w.provider
    && w.backends.file == Record(stale, false) && w.backends.keychain in {NoItem, Item(stale)}
  }

  /** The commit reaches the Keychain, but the old release's file cannot be removed. */
  lemma PublishBesideTheFile(w: World, p: Pid, stale: Tokens, renewed: Tokens)
    requires OldIsCurrent(w, stale) && renewed.provider == w.provider
    requires In(w, p, Publishing(renewed)) && w.jobs[p].tokens == stale
    ensures P.Step(w, Publish(p, true, Oracle(Confirmed, false), false)) ==
      Move(w, p, w.jobs[p].(phase := Releasing(None), committed := true), w.lease)
      .(backends := Backends(Record(stale, false), Item(renewed)), log := w.log + [Refreshed(p, stale, renewed)])
  {
  }

  lemma CommitBesideTheFile(w: World, p: Pid, stale: Tokens, renewed: Tokens)
    requires OldIsCurrent(w, stale) && renewed.provider == w.provider
    requires In(w, p, Exchanging) && w.jobs[p].tokens == stale
    ensures var v := P.Run(w, Answered(p, renewed));
            && v.backends == Backends(Record(stale, false), Item(renewed)) && v.lease == None
            && v.log == w.log + [Refreshed(p, stale, renewed)] && v.sends == w.sends && v.jobs.Keys == w.jobs.Keys
            && v.provider == w.provider && v.useKeychain && v.now == w.now
  {
    var commit := Publish(p, true, Oracle(Confirmed, false), false);
    var answered := P.Step(w, Answer(p, Granted(renewed)));
    assert answered == Move(w, p, w.jobs[p].(phase := Publishing(renewed), granted := Some(renewed)), w.lease);
    StepThenRun(w, Answer(p, Granted(renewed)), [commit] + ([Release(p)] + []));
    PublishBesideTheFile(answered, p, stale, renewed);
    StepThenRun(answered, commit, [Release(p)] + []);
    StepThenRun(P.Step(answered, commit), Release(p), []);
  }

  /** A refresh goes through beside the file, and then another job misreads the store. */
  function Again(stale: Tokens, renewed: Tokens): seq<Event>
  {
    UpToDecision(0, stale, true, 0) + (Answered(0, renewed) + UpToDecision(1, stale, false, 0))
  }

  lemma SendsAgain(w: World, stale: Tokens, renewed: Tokens)
    requires OldIsCurrent(w, stale) && renewed.provider == w.provider && w.jobs == map[] && w.lease == None && w.sends == []
    ensures var v := P.Run(w, Again(stale, renewed));
            && v.log == w.log + [Refreshed(0, stale, renewed)]
            && |v.sends| == 2 && v.sends[1].pid == 1 && v.sends[1].tokens == stale && v.sends[1].at == |v.log|
  {
    var first, last := UpToDecision(0, stale, true, 0), UpToDecision(1, stale, false, 0);
    RunThenRun(w, first, Answered(0, renewed) + last);
    StartUntilLoaded(w, 0, stale, true, 0);
    SendsFor(w, 0, stale, true);
    var sent := P.Run(w, first);
    RunThenRun(sent, Answered(0, renewed), last);
    CommitBesideTheFile(sent, 0, stale, renewed);
    var free := P.Run(sent, Answered(0, renewed));
    StartUntilLoaded(free, 1, stale, false, 0);
    SendsFor(free, 1, stale, false);
  }

  /** A run that sends a replaced snapshot again; a hidden file is uncovered first. */
  lemma ResendRun(w: World, renewed: Tokens) returns (es: seq<Event>)
    requires Initial(w) && CanMisread(w) && renewed.provider == w.provider && renewed != w.backends.file.tokens
    ensures exists k :: Resends(w, es, k, 1)
  {
    var stale := w.backends.file.tokens;
    if HidesLegacyFile(w.provider, w.backends) {
      var uncovered := P.Step(w, Logout(w));
      LogoutUncovers(w);
      es := [Logout(w)] + Again(stale, renewed);
      StepThenRun(w, Logout(w), Again(stale, renewed));
      SendsAgain(uncovered, stale, renewed);
      assert Resends(w, es, 1, 1);
    } else {
      es := Again(stale, renewed);
      SendsAgain(w, stale, renewed);
      assert Resends(w, es, 0, 1);
    }
  }

  // ---------------------------------------------------------------- concrete cases

  const OLD := Tokens("google", "old", "r0", 1000000, "")
  const NEW := Tokens("google", "new", "r1", 2000000, "")

  /** An upgraded installation: the old release's file, and nothing or something newer in
      the Keychain. */
  function Upgraded(keychain: KeychainCopy): World
  {
    var b := Backends(Record(OLD, false), keychain);
    World("google", true, b, None, 0.0, map[], b, [], [])
  }

  /** A caller is handed the old release's credentials, which were never the register's value
      in this run, because the Keychain could not be read. */
  lemma HiddenCredentialsAreHandedOut() returns (w: World, es: seq<Event>)
    ensures Initial(w)
    ensures NeverHeld(w, es, 0, OLD) && P.Run(w, es).jobs[0].misread
  {
    w := Upgraded(Item(NEW));
    es := HandOut(0, NEW, OLD);
    HandsOut(w, 0, NEW, OLD);
    RunContinues(w, es);
  }

  /** A raised logout puts the old release's credentials into a register that had none. */
  lemma LogoutFillsTheStore() returns (w: World, es: seq<Event>)
    ensures Initial(w) && Current(w) == Unreadable
    ensures var v := P.Run(w, es);
            Current(v) == Present(OLD) && |v.log| == 1 && v.log[0].External? && v.log[0].op.Delete?
  {
    w := Upgraded(Undecodable);
    es := [Logout(w)] + [];
    LogoutUncovers(w);
    StepThenRun(w, Logout(w), []);
  }

  /** The refresh token of a replaced snapshot goes out a second time: the result went to
      the Keychain, the old release's file stayed, and then the Keychain could not be read. */
  lemma ReplacedSnapshotIsSentAgain() returns (w: World, es: seq<Event>)
    ensures Initial(w)
    ensures var v := P.Run(w, es);
            && |v.log| == 1 && v.log[0] == Refreshed(0, OLD, NEW)
            && |v.sends| == 2 && v.sends[1].pid == 1 && v.sends[1].tokens == OLD && v.sends[1].at == 1
  {
    w := Upgraded(NoItem);
    es := Again(OLD, NEW);
    SendsAgain(w, OLD, NEW);
  }
}
