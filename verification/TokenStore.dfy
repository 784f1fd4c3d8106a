/** The credential store of koder_agent/auth/token_storage.py.

    One logical register per provider is spread over a macOS Keychain item and a
    token file. `Read` is that register: what a strict load returns when no read
    fails. The class at the end performs the source's updates in place; the step
    functions say what each of them does to one provider's pair of copies, for
    every way the Keychain and the file system can answer.
 */
module TokenStore {
  import opened Prelude

  /** A full credential snapshot; `rest` stands for the e-mail address, the extra
      object and the cached model list, which only take part in equality. */
  datatype Tokens = Tokens(
    provider: string, accessToken: string, refreshToken: string, expiresAt: int, rest: string)

  /** A token file: missing, rejected while parsing, or a record with or without
      the "_storage": "file_fallback" marker. */
  datatype FileCopy = NoFile | Rejected | Record(tokens: Tokens, marked: bool)

  datatype KeychainCopy = NoItem | Undecodable | Item(tokens: Tokens)

  datatype Backends = Backends(file: FileCopy, keychain: KeychainCopy)

  const Nothing := Backends(NoFile, NoItem)

  /** The value of the register. */
  datatype Reading = Present(tokens: Tokens) | Empty | Unreadable

  /** How the Keychain helper answers a write: done, known not to have happened,
      or no authoritative answer (the item may or may not have changed). */
  datatype KeychainReply = Confirmed | Refused | Uncertain(applied: bool)

  /** `fileOk` says whether the operation's write or unlink of the file succeeds. */
  datatype Oracle = Oracle(reply: KeychainReply, fileOk: bool)

  /** A step's new copies, and whether the caller saw it return normally. */
  datatype Step = Step(after: Backends, returned: bool)

  datatype Loaded = Loaded(tokens: Option<Tokens>) | LoadRaised

  const FILE_FALLBACK := true

  function Own(provider: string, t: Tokens): Reading
  {
    if t.provider == provider then Present(t) else Empty
  }

  /** The register: a marked file is authoritative, then the Keychain, then an
      unmarked file left behind by an older release. */
  function Read(provider: string, useKeychain: bool, b: Backends): Reading
  {
    match b.file
    case Rejected => Empty
    case Record(t, marked) =>
      if t.provider != provider then Empty
      else if marked || !useKeychain || b.keychain.NoItem? then Present(t)
      else if b.keychain.Item? then Own(provider, b.keychain.tokens)
      else Unreadable
    case NoFile =>
      if !useKeychain || b.keychain.NoItem? then Empty
      else if b.keychain.Item? then Own(provider, b.keychain.tokens)
      else Unreadable
  }

  /** The file is an unmarked copy from an older release. */
  predicate Legacy(b: Backends)
  {
    b.file.Record? && !b.file.marked
  }

  /** Such a copy of the provider's own credentials. */
  predicate OwnLegacy(provider: string, b: Backends)
  {
    Legacy(b) && b.file.tokens.provider == provider
  }

  // ---------------------------------------------------------------- reading

  /** What _load hands back. It never returns a credential other than the register's,
      except that a tolerant load may fall back to a legacy file. */
  function Load(provider: string, useKeychain: bool, b: Backends, strict: bool, retrieved: bool): (r: Loaded)
    ensures (strict || (retrieved && !b.keychain.Undecodable?)) && r.Loaded? ==>
      Read(provider, useKeychain, b) == (if r.tokens.Some? then Present(r.tokens.value) else Empty)
    ensures strict && r.LoadRaised? ==> useKeychain && (!retrieved || b.keychain.Undecodable?)
    ensures !strict ==> r.Loaded?
    ensures r.Loaded? && r.tokens.Some? && (useKeychain ==> !Legacy(b)) ==>
      Read(provider, useKeychain, b) == Present(r.tokens.value)
    ensures r.Loaded? && r.tokens.Some? ==> r.tokens.value.provider == provider
  {
    if b.file.Rejected? || (b.file.Record? && b.file.tokens.provider != provider) then
      Loaded(None)
    else if b.file.Record? && b.file.marked then
      Loaded(Some(b.file.tokens))
    else
      var fileTokens := if b.file.Record? then Some(b.file.tokens) else None;
      if !useKeychain then Loaded(fileTokens)
      else if !retrieved || b.keychain.Undecodable? then
        if strict then LoadRaised else Loaded(fileTokens)
      else if b.keychain.NoItem? then Loaded(fileTokens)
      else Loaded(if b.keychain.tokens.provider == provider then Some(b.keychain.tokens) else None)
  }

  // ---------------------------------------------------------------- writing

  /** _save. A normal return makes `t` the register's value whatever stale copy the
      other backend holds; a raised save leaves the old value or the new one. */
  function SaveStep(useKeychain: bool, b: Backends, t: Tokens, o: Oracle): (s: Step)
    ensures s.returned ==> Read(t.provider, useKeychain, s.after) == Present(t)
    ensures !s.returned ==>
      Read(t.provider, useKeychain, s.after) in {Read(t.provider, useKeychain, b), Present(t)}
    ensures !Legacy(b) ==> !Legacy(s.after)
    ensures s.returned ==> !Legacy(s.after)
  {
    if useKeychain && o.reply.Uncertain? then
      Step(if o.reply.applied then b.(keychain := Item(t)) else b, false)
    else if useKeychain && o.reply.Confirmed? then
      if b.file.NoFile? || o.fileOk then Step(Backends(NoFile, Item(t)), true)
      else Step(b.(keychain := Item(t)), false)
    else if o.fileOk then Step(b.(file := Record(t, FILE_FALLBACK)), true)
    else Step(b, false)
  }

  /** _delete: the Keychain first, then the file. */
  function DeleteStep(useKeychain: bool, b: Backends, o: Oracle): (s: Step)
    ensures s.returned ==> forall p :: Read(p, useKeychain, s.after) == Empty
    ensures !s.returned && !Legacy(b) ==>
      forall p :: Read(p, useKeychain, s.after) in {Read(p, useKeychain, b), Empty}
    ensures !Legacy(b) ==> !Legacy(s.after)
  {
    if useKeychain && o.reply.Refused? then Step(b, false)
    else if useKeychain && o.reply.Uncertain? then
      Step(if o.reply.applied then b.(keychain := NoItem) else b, false)
    else
      var cleared := if useKeychain then b.(keychain := NoItem) else b;
      if b.file.NoFile? then Step(cleared, true)
      else if o.fileOk then Step(cleared.(file := NoFile), true)
      else Step(cleared, false)
  }

  /** A raised delete can uncover a legacy file: the Keychain item is gone, the
      unlink never happened. Exactly the stores in which a legacy file lies hidden
      under a Keychain item that differs from it are affected. */
  predicate HidesLegacyFile(provider: string, b: Backends)
  {
    OwnLegacy(provider, b) && !b.keychain.NoItem? && b.keychain != Item(b.file.tokens)
  }

  /** The provider's register takes a value that is neither the one before the
      delete nor empty. */
  predicate ResurfacesAfterDelete(provider: string, useKeychain: bool, b: Backends, o: Oracle)
  {
    var s := DeleteStep(useKeychain, b, o);
    !s.returned && Read(provider, useKeychain, s.after) !in {Read(provider, useKeychain, b), Empty}
  }

  lemma DeleteResurfacesIff(provider: string, useKeychain: bool, b: Backends)
    ensures (exists o :: ResurfacesAfterDelete(provider, useKeychain, b, o)) <==>
      useKeychain && HidesLegacyFile(provider, b)
  {
    if useKeychain && HidesLegacyFile(provider, b) {
      assert ResurfacesAfterDelete(provider, useKeychain, b, Oracle(Uncertain(true), true));
    }
  }

  lemma DeleteCanResurface() returns (b: Backends, o: Oracle)
    ensures Read("google", true, b) == Present(Tokens("google", "new", "n", 9, ""))
    ensures !DeleteStep(true, b, o).returned
    ensures Read("google", true, DeleteStep(true, b, o).after) == Present(Tokens("google", "old", "o", 1, ""))
  {
    b := Backends(Record(Tokens("google", "old", "o", 1, ""), false), Item(Tokens("google", "new", "n", 9, "")));
    o := Oracle(Uncertain(true), true);
  }

  /** A tolerant load returns credentials that are not the register's exactly if a legacy
      file lies hidden and the Keychain item over it cannot be read. */
  predicate Misreads(provider: string, useKeychain: bool, b: Backends, retrieved: bool)
  {
    useKeychain && HidesLegacyFile(provider, b) && (!retrieved || b.keychain.Undecodable?)
  }

  lemma LoadMisreadsIff(provider: string, useKeychain: bool, b: Backends, retrieved: bool)
    ensures var r := Load(provider, useKeychain, b, false, retrieved);
            r.tokens.Some? && Read(provider, useKeychain, b) != Present(r.tokens.value) <==>
              Misreads(provider, useKeychain, b, retrieved)
  {
  }

  // ------------------------------------------------- conditional operations

  /** What a caller sees: a normal return (with the source's boolean) or an exception. */
  datatype Reply = Returned(flag: bool) | Raised

  datatype Op =
    | Save(tokens: Tokens, o: Oracle)
    | Delete(provider: string, o: Oracle)
    | SaveIfCurrent(expected: Tokens, refreshed: Tokens, retrieved: bool, o: Oracle)
    | UpdateAccess(provider: string, accessToken: string, expiresAt: int, refreshToken: string,
                   retrieved: bool, o: Oracle)

  datatype Applied = Applied(after: Backends, reply: Reply)

  predicate IdentifierChar(c: char)
  {
    'a' <= c <= 'z' || 'A' <= c <= 'Z' || '0' <= c <= '9' || c == '_' || c == '-'
  }

  predicate ValidProvider(p: string)
  {
    p != "" && forall i :: 0 <= i < |p| ==> IdentifierChar(p[i])
  }

  function Target(op: Op): string
  {
    match op
    case Save(t, _) => t.provider
    case Delete(p, _) => p
    case SaveIfCurrent(expected, _, _, _) => expected.provider
    case UpdateAccess(p, _, _, _, _, _) => p
  }

  function Renewed(t: Tokens, accessToken: string, expiresAt: int, refreshToken: string): Tokens
  {
    t.(accessToken := accessToken, expiresAt := expiresAt,
       refreshToken := if refreshToken != "" then refreshToken else t.refreshToken)
  }

  /** The same operation on an ideal register. */
  function Ideal(op: Op, r: Reading): Reading
  {
    match op
    case Save(t, _) => Present(t)
    case Delete(_, _) => Empty
    case SaveIfCurrent(expected, refreshed, _, _) => if r == Present(expected) then Present(refreshed) else r
    case UpdateAccess(_, access, expires, refresh, _, _) =>
      if r.Present? then Present(Renewed(r.tokens, access, expires, refresh)) else r
  }

  /** One mutating call on its provider's copies, as the class below performs it. */
  function Apply(useKeychain: bool, b: Backends, op: Op): (a: Applied)
    ensures !Legacy(b) ==> !Legacy(a.after)
    ensures !ValidProvider(Target(op)) ==> a == Applied(b, Raised)
    ensures op.SaveIfCurrent? && a.reply == Returned(true) ==>
      Read(Target(op), useKeychain, b) == Present(op.expected)
    ensures op.SaveIfCurrent? && a.reply == Returned(false) ==>
      a.after == b && Read(Target(op), useKeychain, b) != Present(op.expected)
    ensures op.Delete? && a.reply == Returned(false) ==> Read(Target(op), useKeychain, b) == Empty
    ensures op.UpdateAccess? && a.reply.Returned? ==>
      (a.reply.flag <==> Read(Target(op), useKeychain, b).Present?)
  {
    if !ValidProvider(Target(op)) then Applied(b, Raised)
    else
      match op
      case Save(t, o) =>
        var s := SaveStep(useKeychain, b, t, o);
        Applied(s.after, if s.returned then Returned(true) else Raised)
      case Delete(_, o) =>
        var s := DeleteStep(useKeychain, b, o);
        Applied(s.after,
                if s.returned then Returned((useKeychain && !b.keychain.NoItem?) || !b.file.NoFile?)
                else Raised)
      case SaveIfCurrent(expected, refreshed, retrieved, o) =>
        if refreshed.provider != expected.provider then Applied(b, Raised)
        else
          (match Load(expected.provider, useKeychain, b, true, retrieved)
           case LoadRaised => Applied(b, Raised)
           case Loaded(current) =>
             if current != Some(expected) then Applied(b, Returned(false))
             else
               var s := SaveStep(useKeychain, b, refreshed, o);
               Applied(s.after, if s.returned then Returned(true) else Raised))
      case UpdateAccess(provider, access, expires, refresh, retrieved, o) =>
        (match Load(provider, useKeychain, b, true, retrieved)
         case LoadRaised => Applied(b, Raised)
         case Loaded(None) => Applied(b, Returned(false))
         case Loaded(Some(t)) =>
           var s := SaveStep(useKeychain, b, Renewed(t, access, expires, refresh), o);
           Applied(s.after, if s.returned then Returned(true) else Raised))
  }

  /** The call has its ideal effect when it returns, and that effect or none when it raises. */
  predicate Atomic(useKeychain: bool, b: Backends, op: Op)
  {
    var a := Apply(useKeychain, b, op);
    var before, after := Read(Target(op), useKeychain, b), Read(Target(op), useKeychain, a.after);
    (a.reply.Returned? ==> after == Ideal(op, before)) && (a.reply.Raised? ==> after in {before, Ideal(op, before)})
  }

  /** A delete that takes the Keychain item away from over a legacy file, and not the file. */
  predicate Uncovers(useKeychain: bool, b: Backends, op: Op)
  {
    && op.Delete? && ValidProvider(op.provider) && useKeychain && HidesLegacyFile(op.provider, b)
    && (op.o.reply == Uncertain(true) || (op.o.reply.Confirmed? && !op.o.fileOk))
  }

  /** Every call is atomic on the register, except exactly the deletes that uncover a
      legacy file. */
  lemma AtomicIff(useKeychain: bool, b: Backends, op: Op)
    ensures Atomic(useKeychain, b, op) <==> !Uncovers(useKeychain, b, op)
  {
    if op.UpdateAccess? {
      var r := Load(op.provider, useKeychain, b, true, op.retrieved);
      if r.Loaded? && r.tokens.Some? {
        assert r.tokens.value.provider == op.provider;
      }
    }
  }

  lemma ApplyRefinesRegister(useKeychain: bool, b: Backends, op: Op)
    requires !Uncovers(useKeychain, b, op)
    ensures var p := Target(op);
            var a := Apply(useKeychain, b, op);
            var before, after := Read(p, useKeychain, b), Read(p, useKeychain, a.after);
            && (a.reply.Returned? ==> after == Ideal(op, before))
            && (a.reply.Raised? ==> after in {before, Ideal(op, before)})
  {
    AtomicIff(useKeychain, b, op);
  }

  /** What is left of the backends the history began with: nobody writes a legacy file, and
      while there is one the Keychain holds its first item, none, or one of the provider's own. */
  predicate Descends(provider: string, opening: Backends, b: Backends)
  {
    Legacy(b) ==>
      && b.file == opening.file
      && (b.keychain == opening.keychain || b.keychain.NoItem?
          || (b.keychain.Item? && b.keychain.tokens.provider == provider))
  }

  lemma ApplyDescends(useKeychain: bool, opening: Backends, b: Backends, op: Op)
    requires Descends(Target(op), opening, b)
    ensures Descends(Target(op), opening, Apply(useKeychain, b, op).after)
  {
  }

  // ------------------------------------------------------------------- runs

  type Slots = map<string, Backends>

  function Slot(slots: Slots, p: string): Backends
  {
    if p in slots then slots[p] else Nothing
  }

  predicate NoLegacyFiles(slots: Slots)
  {
    forall p :: p in slots ==> !Legacy(slots[p])
  }

  function After(useKeychain: bool, slots: Slots, op: Op): Slots
  {
    slots[Target(op) := Apply(useKeychain, Slot(slots, Target(op)), op).after]
  }

  function Run(useKeychain: bool, slots: Slots, ops: seq<Op>): Slots
    decreases ops
  {
    if ops == [] then slots else Run(useKeychain, After(useKeychain, slots, ops[0]), ops[1..])
  }

  function Replies(useKeychain: bool, slots: Slots, ops: seq<Op>): (replies: seq<Reply>)
    ensures |replies| == |ops|
    decreases ops
  {
    if ops == [] then []
    else [Apply(useKeychain, Slot(slots, Target(ops[0])), ops[0]).reply]
         + Replies(useKeychain, After(useKeychain, slots, ops[0]), ops[1..])
  }

  /** An ideal register for provider `p` that executes just the kept operations. */
  function IdealRun(p: string, ops: seq<Op>, kept: seq<bool>, r: Reading): Reading
    requires |kept| == |ops|
  {
    if ops == [] then r
    else IdealRun(p, ops[1..], kept[1..],
                  if kept[0] && Target(ops[0]) == p then Ideal(ops[0], r) else r)
  }

  /** No delete of the run uncovers a legacy file. */
  predicate NothingUncovered(useKeychain: bool, slots: Slots, ops: seq<Op>)
    decreases ops
  {
    ops == [] ||
    (!Uncovers(useKeychain, Slot(slots, Target(ops[0])), ops[0])
     && NothingUncovered(useKeychain, After(useKeychain, slots, ops[0]), ops[1..]))
  }

  /** In particular this holds for every run without legacy files, or without a Keychain. */
  lemma {:induction false} CleanStoresUncoverNothing(useKeychain: bool, slots: Slots, ops: seq<Op>)
    requires useKeychain ==> NoLegacyFiles(slots)
    ensures NothingUncovered(useKeychain, slots, ops)
    decreases ops
  {
    if ops != [] {
      CleanStoresUncoverNothing(useKeychain, After(useKeychain, slots, ops[0]), ops[1..]);
    }
  }

  /** Every run over the two backends is a run of one register per provider: all
      calls that returned took effect, in order, and a call that raised either took
      its whole effect or none. */
  lemma {:induction false} RunRefinesRegister(useKeychain: bool, slots: Slots, ops: seq<Op>, p: string)
    returns (kept: seq<bool>)
    requires NothingUncovered(useKeychain, slots, ops)
    ensures |kept| == |ops|
    ensures forall i :: 0 <= i < |ops| && Replies(useKeychain, slots, ops)[i].Returned? ==> kept[i]
    ensures Read(p, useKeychain, Slot(Run(useKeychain, slots, ops), p))
            == IdealRun(p, ops, kept, Read(p, useKeychain, Slot(slots, p)))
    decreases ops
  {
    if ops == [] {
      kept := [];
    } else {
      var op := ops[0];
      var a := Apply(useKeychain, Slot(slots, Target(op)), op);
      ApplyRefinesRegister(useKeychain, Slot(slots, Target(op)), op);
      var next := After(useKeychain, slots, op);
      var rest := RunRefinesRegister(useKeychain, next, ops[1..], p);
      var before := Read(Target(op), useKeychain, Slot(slots, Target(op)));
      var took := Read(Target(op), useKeychain, a.after) == Ideal(op, before);
      kept := [took] + rest;
      assert kept[1..] == rest;
    }
  }

  /** The last completed write of a provider is what a strict load returns, or the Keychain
      could not be asked. */
  lemma {:induction false} StrictLoadReturnsLastSave(useKeychain: bool, slots: Slots, before: seq<Op>,
      t: Tokens, o: Oracle, after: seq<Op>, retrieved: bool)
    requires forall i :: 0 <= i < |after| ==> Target(after[i]) != t.provider
    requires Apply(useKeychain, Slot(Run(useKeychain, slots, before), t.provider), Save(t, o)).reply.Returned?
    ensures var b := Slot(Run(useKeychain, Run(useKeychain, slots, before + [Save(t, o)]), after), t.provider);
            var r := Load(t.provider, useKeychain, b, true, retrieved);
            r == Loaded(Some(t)) || (r == LoadRaised && useKeychain && !retrieved)
  {
    RunAppend(useKeychain, slots, before, Save(t, o));
    OtherProvidersUntouched(useKeychain, Run(useKeychain, slots, before + [Save(t, o)]), after, t.provider);
  }

  lemma {:induction false} RunAppend(useKeychain: bool, slots: Slots, ops: seq<Op>, op: Op)
    ensures Run(useKeychain, slots, ops + [op]) == After(useKeychain, Run(useKeychain, slots, ops), op)
    decreases ops
  {
    if ops == [] {
      assert ops + [op] == [op];
    } else {
      assert (ops + [op])[1..] == ops[1..] + [op];
      RunAppend(useKeychain, After(useKeychain, slots, ops[0]), ops[1..], op);
    }
  }

  lemma {:induction false} OtherProvidersUntouched(useKeychain: bool, slots: Slots, ops: seq<Op>, p: string)
    requires forall i :: 0 <= i < |ops| ==> Target(ops[i]) != p
    ensures Slot(Run(useKeychain, slots, ops), p) == Slot(slots, p)
    decreases ops
  {
    if ops != [] {
      OtherProvidersUntouched(useKeychain, After(useKeychain, slots, ops[0]), ops[1..], p);
    }
  }

  // ---------------------------------------------------------------- the class

  /** TokenStorage with its per-provider lock held for each call, so that a method
      body runs on the copies alone. Each external call takes its answer as a
      parameter. */
  class TokenStorage {
    var slots: Slots
    const useKeychain: bool

    constructor (useKeychain: bool, slots: Slots)
      ensures this.useKeychain == useKeychain && this.slots == slots
    {
      this.useKeychain := useKeychain;
      this.slots := slots;
    }

    /** load and the strict read under CAS. */
    method LoadTokens(provider: string, strict: bool, retrieved: bool) returns (r: Loaded)
      ensures ValidProvider(provider) ==>
        r == Load(provider, useKeychain, Slot(slots, provider), strict, retrieved)
      ensures !ValidProvider(provider) ==> r == LoadRaised
    {
      if !ValidProvider(provider) {
        return LoadRaised;
      }
      var b := Slot(slots, provider);
      var fileTokens: Option<Tokens> := None;
      match b.file {
        case NoFile =>
        case Rejected =>
          return Loaded(None);
        case Record(t, marked) =>
          if t.provider != provider {
            return Loaded(None);
          }
          if marked {
            return Loaded(Some(t));
          }
          fileTokens := Some(t);
      }
      if useKeychain {
        if !retrieved || b.keychain.Undecodable? {
          if strict {
            return LoadRaised;
          }
        } else if b.keychain.Item? {
          var t := b.keychain.tokens;
          return Loaded(if t.provider == provider then Some(t) else None);
        }
      }
      return Loaded(fileTokens);
    }

    /** _save, under the caller's lock. */
    method Publish(t: Tokens, o: Oracle) returns (returned: bool)
      modifies this
      ensures slots == old(slots)[t.provider := SaveStep(useKeychain, Slot(old(slots), t.provider), t, o).after]
      ensures returned == SaveStep(useKeychain, Slot(old(slots), t.provider), t, o).returned
    {
      var p := t.provider;
      slots := slots[p := Slot(slots, p)];
      var stored := false;
      if useKeychain {
        match o.reply {
          case Uncertain(applied) =>
            if applied {
              slots := slots[p := slots[p].(keychain := Item(t))];
            }
            return false;
          case Refused =>
          case Confirmed =>
            slots := slots[p := slots[p].(keychain := Item(t))];
            stored := true;
        }
      }
      if stored {
        if !slots[p].file.NoFile? {
          if !o.fileOk {
            return false;
          }
          slots := slots[p := slots[p].(file := NoFile)];
        }
        return true;
      }
      if !o.fileOk {
        return false;
      }
      slots := slots[p := slots[p].(file := Record(t, FILE_FALLBACK))];
      return true;
    }

    method SaveTokens(t: Tokens, o: Oracle) returns (reply: Reply)
      modifies this
      ensures Slot(slots, t.provider) == Apply(useKeychain, Slot(old(slots), t.provider), Save(t, o)).after
      ensures forall p :: p != t.provider ==> Slot(slots, p) == Slot(old(slots), p)
      ensures reply == Apply(useKeychain, Slot(old(slots), t.provider), Save(t, o)).reply
      ensures reply.Returned? ==> Read(t.provider, useKeychain, Slot(slots, t.provider)) == Present(t)
    {
      if !ValidProvider(t.provider) {
        return Raised;
      }
      var returned := Publish(t, o);
      return if returned then Returned(true) else Raised;
    }

    method SaveTokensIfCurrent(expected: Tokens, refreshed: Tokens, retrieved: bool, o: Oracle)
      returns (reply: Reply)
      modifies this
      ensures Slot(slots, expected.provider)
        == Apply(useKeychain, Slot(old(slots), expected.provider), SaveIfCurrent(expected, refreshed, retrieved, o)).after
      ensures forall p :: p != expected.provider ==> Slot(slots, p) == Slot(old(slots), p)
      ensures reply
        == Apply(useKeychain, Slot(old(slots), expected.provider), SaveIfCurrent(expected, refreshed, retrieved, o)).reply
      ensures reply == Returned(true) ==>
        && Read(expected.provider, useKeychain, Slot(old(slots), expected.provider)) == Present(expected)
        && Read(expected.provider, useKeychain, Slot(slots, expected.provider)) == Present(refreshed)
    {
      if refreshed.provider != expected.provider || !ValidProvider(expected.provider) {
        return Raised;
      }
      var current := LoadTokens(expected.provider, true, retrieved);
      if current.LoadRaised? {
        return Raised;
      }
      if current.tokens != Some(expected) {
        return Returned(false);
      }
      var returned := Publish(refreshed, o);
      return if returned then Returned(true) else Raised;
    }

    method DeleteTokens(provider: string, o: Oracle) returns (reply: Reply)
      modifies this
      ensures Slot(slots, provider) == Apply(useKeychain, Slot(old(slots), provider), Delete(provider, o)).after
      ensures forall p :: p != provider ==> Slot(slots, p) == Slot(old(slots), p)
      ensures reply == Apply(useKeychain, Slot(old(slots), provider), Delete(provider, o)).reply
      ensures reply.Returned? ==> Read(provider, useKeychain, Slot(slots, provider)) == Empty
    {
      if !ValidProvider(provider) {
        return Raised;
      }
      slots := slots[provider := Slot(slots, provider)];
      var deleted := false;
      if useKeychain {
        match o.reply {
          case Refused =>
            return Raised;
          case Uncertain(applied) =>
            if applied {
              slots := slots[provider := slots[provider].(keychain := NoItem)];
            }
            return Raised;
          case Confirmed =>
            deleted := !slots[provider].keychain.NoItem?;
            slots := slots[provider := slots[provider].(keychain := NoItem)];
        }
      }
      if !slots[provider].file.NoFile? {
        if !o.fileOk {
          return Raised;
        }
        slots := slots[provider := slots[provider].(file := NoFile)];
        deleted := true;
      }
      return Returned(deleted);
    }

    method UpdateAccessToken(provider: string, accessToken: string, expiresAt: int, refreshToken: string,
                             retrieved: bool, o: Oracle)
      returns (reply: Reply)
      modifies this
      ensures var op := UpdateAccess(provider, accessToken, expiresAt, refreshToken, retrieved, o);
              var a := Apply(useKeychain, Slot(old(slots), provider), op);
              Slot(slots, provider) == a.after && reply == a.reply
      ensures forall p :: p != provider ==> Slot(slots, p) == Slot(old(slots), p)
    {
      if !ValidProvider(provider) {
        return Raised;
      }
      var loaded := LoadTokens(provider, true, retrieved);
      if loaded.LoadRaised? {
        return Raised;
      }
      if loaded.tokens.None? {
        return Returned(false);
      }
      var tokens := loaded.tokens.value;
      tokens := tokens.(accessToken := accessToken);
      tokens := tokens.(expiresAt := expiresAt);
      if refreshToken != "" {
        tokens := tokens.(refreshToken := refreshToken);
      }
      var returned := Publish(tokens, o);
      return if returned then Returned(true) else Raised;
    }
  }
}
