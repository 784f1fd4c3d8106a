/** When the calls of the credential store return, what they answer, and where a save leaves
    the credentials: over the copies before the call and the answers of Keychain and file
    system. */
module TokenReplies {
  import opened Prelude
  import opened TokenStore

  // ---------------------------------------------------------------- reading

  /** The Keychain has a say: there is one, and the file is missing or a legacy one. */
  predicate Consulted(provider: string, useKeychain: bool, b: Backends)
  {
    useKeychain && (b.file.NoFile? || OwnLegacy(provider, b))
  }

  /** Nothing stands between the caller and the register. */
  predicate Readable(provider: string, useKeychain: bool, b: Backends, retrieved: bool)
  {
    Consulted(provider, useKeychain, b) ==> retrieved && !b.keychain.Undecodable?
  }

  function Held(r: Reading): Option<Tokens>
  {
    if r.Present? then Some(r.tokens) else None
  }

  /** A load answers with the register wherever it can be read; otherwise a strict one
      raises, and a tolerant one makes do with the legacy file. */
  lemma LoadAnswers(provider: string, useKeychain: bool, b: Backends, strict: bool, retrieved: bool)
    ensures var r := Load(provider, useKeychain, b, strict, retrieved);
            && (r.LoadRaised? <==> strict && !Readable(provider, useKeychain, b, retrieved))
            && (Readable(provider, useKeychain, b, retrieved) ==> r == Loaded(Held(Read(provider, useKeychain, b))))
            && (!strict && !Readable(provider, useKeychain, b, retrieved) ==>
                  r == Loaded(if b.file.Record? then Some(b.file.tokens) else None))
  {
  }

  /** The register is unreadable exactly if the Keychain has a say and its item cannot be
      decoded, and holds credentials exactly if the copy that counts is the provider's own. */
  lemma RegisterIs(provider: string, useKeychain: bool, b: Backends)
    ensures Read(provider, useKeychain, b).Unreadable? <==> Consulted(provider, useKeychain, b) && b.keychain.Undecodable?
    ensures Read(provider, useKeychain, b).Present? <==>
      if Consulted(provider, useKeychain, b) && !b.keychain.NoItem? then b.keychain.Item? && b.keychain.tokens.provider == provider
      else b.file.Record? && b.file.tokens.provider == provider
  {
  }

  /** A marked file is read whatever the Keychain holds or answers. */
  lemma MarkedFileIsRead(provider: string, useKeychain: bool, b: Backends, strict: bool, retrieved: bool)
    requires b.file.Record? && b.file.marked && b.file.tokens.provider == provider
    ensures Load(provider, useKeychain, b, strict, retrieved) == Loaded(Some(b.file.tokens))
    ensures Read(provider, useKeychain, b) == Present(b.file.tokens)
  {
  }

  // ---------------------------------------------------------------- writing

  /** The Keychain's answer is not uncertain, and the file step that it calls for succeeds:
      the removal of an older file after a confirmed write, otherwise the file itself. */
  predicate SaveGoesThrough(useKeychain: bool, b: Backends, o: Oracle)
  {
    if !useKeychain then o.fileOk
    else
      match o.reply
      case Uncertain(_) => false
      case Confirmed => b.file.NoFile? || o.fileOk
      case Refused => o.fileOk
  }

  /** A save returns exactly then, and leaves the credentials in the Keychain and no file, or
      in a marked file beside an untouched Keychain; one that raises leaves at most the item. */
  lemma SaveReturnsIff(useKeychain: bool, b: Backends, t: Tokens, o: Oracle)
    ensures var s := SaveStep(useKeychain, b, t, o);
            && (s.returned <==> SaveGoesThrough(useKeychain, b, o))
            && (s.returned ==> s.after == if useKeychain && o.reply.Confirmed? then Backends(NoFile, Item(t))
                                          else Backends(Record(t, true), b.keychain))
            && (!s.returned ==>
                  s.after == if useKeychain && (o.reply.Confirmed? || o.reply == Uncertain(true)) then b.(keychain := Item(t)) else b)
  {
  }

  /** So credentials survive a Keychain that refuses: every later load, strict or not, finds
      them, whatever the Keychain answers then. */
  lemma RefusedSaveIsFound(b: Backends, t: Tokens, fileOk: bool, strict: bool, retrieved: bool)
    ensures var s := SaveStep(true, b, t, Oracle(Refused, fileOk));
            s.returned == fileOk
            && (fileOk ==> Load(t.provider, true, s.after, strict, retrieved) == Loaded(Some(t)))
  {
    SaveReturnsIff(true, b, t, Oracle(Refused, fileOk));
    if fileOk {
      MarkedFileIsRead(t.provider, true, SaveStep(true, b, t, Oracle(Refused, fileOk)).after, strict, retrieved);
    }
  }

  /** A delete returns exactly if the Keychain confirms and the file, if there is one, goes. */
  lemma DeleteReturnsIff(useKeychain: bool, b: Backends, o: Oracle)
    ensures var s := DeleteStep(useKeychain, b, o);
            && (s.returned <==> (useKeychain ==> o.reply.Confirmed?) && (b.file.NoFile? || o.fileOk))
            && (s.returned ==> s.after == Backends(NoFile, if useKeychain then NoItem else b.keychain))
            && (!s.returned ==>
                  s.after == if useKeychain && (o.reply.Confirmed? || o.reply == Uncertain(true)) then b.(keychain := NoItem) else b)
  {
  }

  // ------------------------------------------------------------------ replies

  /** The compare-and-swap returns true exactly if the register can be read, holds the
      expected snapshot and the save goes through; false exactly if it holds something else. */
  lemma SaveIfCurrentReplies(useKeychain: bool, b: Backends, expected: Tokens, refreshed: Tokens, retrieved: bool, o: Oracle)
    ensures var p := expected.provider;
            var a := Apply(useKeychain, b, SaveIfCurrent(expected, refreshed, retrieved, o));
            var heard := ValidProvider(p) && refreshed.provider == p && Readable(p, useKeychain, b, retrieved);
            && (a.reply == Returned(true) <==>
                  heard && Read(p, useKeychain, b) == Present(expected) && SaveGoesThrough(useKeychain, b, o))
            && (a.reply == Returned(false) <==> heard && Read(p, useKeychain, b) != Present(expected))
            && (a.reply == Returned(true) ==> Read(p, useKeychain, a.after) == Present(refreshed))
  {
    LoadAnswers(expected.provider, useKeychain, b, true, retrieved);
    SaveReturnsIff(useKeychain, b, refreshed, o);
  }

  /** An unconditional save of valid credentials returns exactly if it goes through, and then
      the register holds them. */
  lemma SaveReplies(useKeychain: bool, b: Backends, t: Tokens, o: Oracle)
    ensures var a := Apply(useKeychain, b, Save(t, o));
            && (a.reply == Returned(true) <==> ValidProvider(t.provider) && SaveGoesThrough(useKeychain, b, o))
            && (a.reply != Returned(true) <==> a.reply.Raised?)
            && (a.reply.Returned? ==> Read(t.provider, useKeychain, a.after) == Present(t))
  {
    SaveReturnsIff(useKeychain, b, t, o);
  }

  /** A delete tells whether there was a copy to remove. */
  lemma DeleteReplies(useKeychain: bool, b: Backends, provider: string, o: Oracle)
    ensures var a := Apply(useKeychain, b, Delete(provider, o));
            && (a.reply.Returned? <==>
                  ValidProvider(provider) && (useKeychain ==> o.reply.Confirmed?) && (b.file.NoFile? || o.fileOk))
            && (a.reply.Returned? ==>
                  (a.reply.flag <==> b.file != NoFile || (useKeychain && b.keychain != NoItem)))
  {
    DeleteReturnsIff(useKeychain, b, o);
  }

  /** A token update writes exactly what was given over what the register holds: everything
      else stays, the refresh token too if none is given. */
  lemma UpdateReplies(useKeychain: bool, b: Backends, provider: string, access: string, expires: int, refresh: string,
                      retrieved: bool, o: Oracle)
    ensures var a := Apply(useKeychain, b, UpdateAccess(provider, access, expires, refresh, retrieved, o));
            var before, after := Read(provider, useKeychain, b), Read(provider, useKeychain, a.after);
            var heard := ValidProvider(provider) && Readable(provider, useKeychain, b, retrieved);
            && (a.reply == Returned(true) <==> heard && before.Present? && SaveGoesThrough(useKeychain, b, o))
            && (a.reply == Returned(false) <==> heard && !before.Present?)
            && (a.reply == Returned(true) ==>
                  && after.Present? && after.tokens.accessToken == access && after.tokens.expiresAt == expires
                  && after.tokens.provider == before.tokens.provider && after.tokens.rest == before.tokens.rest
                  && (refresh != "" ==> after.tokens.refreshToken == refresh)
                  && (refresh == "" ==> after.tokens.refreshToken == before.tokens.refreshToken))
  {
    LoadAnswers(provider, useKeychain, b, true, retrieved);
    var r := Read(provider, useKeychain, b);
    if r.Present? {
      SaveReturnsIff(useKeychain, b, Renewed(r.tokens, access, expires, refresh), o);
    }
  }

  // ------------------------------------------------------------- identifiers

  /** By code point: letters, digits, the underscore and the hyphen. */
  predicate Allowed(c: char)
  {
    var n := c as int;
    65 <= n < 91 || 97 <= n < 123 || 48 <= n < 58 || n == 95 || n == 45
  }

  /** A provider's identifier is one or more of these and nothing else. */
  lemma ProviderNames(p: string)
    ensures ValidProvider(p) <==> |p| > 0 && forall c :: c in p ==> Allowed(c)
  {
    assert forall c :: IdentifierChar(c) <==> Allowed(c);
  }
}
