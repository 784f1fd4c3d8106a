/** What the public names of a batch look like, in terms of the servers' and the tools' own
    text: the preferred text, the shortened one and the digests. */
module McpNameRules {
  import opened Prelude
  import opened McpNameText
  import opened McpAllocation

  // ------------------------------------------------------------ cleaned parts

  /** A character that cleaning and stripping both keep. */
  predicate Solid(c: char)
  {
    WordChar(c) && c != '_'
  }

  /** What cleaning makes of a part: its characters from the first solid one to the last,
      with an underscore for each that is not a word character. */
  ghost predicate IsPart(value: string, part: string)
  {
    if forall k :: 0 <= k < |value| ==> !Solid(value[k]) then part == "unknown"
    else exists from: nat :: CleanedFrom(value, part, from)
  }

  predicate CleanedFrom(value: string, part: string, from: nat)
  {
    && 0 < |part| <= |value| - from
    && Solid(value[from]) && Solid(value[from + |part| - 1])
    && (forall k :: 0 <= k < |value| && !(from <= k < from + |part|) ==> !Solid(value[k]))
    && (forall k :: 0 <= k < |part| ==> part[k] == if WordChar(value[from + k]) then value[from + k] else '_')
  }

  lemma {:induction false} CleanedAt(s: string)
    ensures forall k :: 0 <= k < |s| ==> Cleaned(s)[k] == if WordChar(s[k]) then s[k] else '_'
  {
    if s != "" {
      CleanedAt(s[1..]);
    }
  }

  /** lstrip("_") takes off the first n characters. */
  predicate StripsTo(s: string, n: nat, r: string)
  {
    n <= |s| && r == s[n..] && (r == "" || r[0] != '_') && forall i :: 0 <= i < n ==> s[i] == '_'
  }

  lemma {:induction false} LStripped(s: string) returns (n: nat)
    ensures StripsTo(s, n, LStrip(s))
  {
    if s != "" && s[0] == '_' {
      var m := LStripped(s[1..]);
      n := m + 1;
      assert s[n..] == s[1..][m..];
      forall i | 0 <= i < n
        ensures s[i] == '_'
      {
        assert i > 0 ==> s[i] == s[1..][i - 1];
      }
    } else {
      n := 0;
      assert s[0..] == s;
    }
  }

  lemma SafePartIsPart(value: string)
    ensures IsPart(value, SafePart(value))
  {
    var cleaned := Cleaned(value);
    CleanedAt(value);
    var from := LStripped(cleaned);
    var right := LStrip(cleaned);
    var part := RStrip(right);
    assert forall k :: from <= k < |value| ==> cleaned[k] == right[k - from];
    if part == "" {
      assert forall k :: 0 <= k < |value| ==> !Solid(value[k]);
    } else {
      assert part[0] == cleaned[from] && part[|part| - 1] == cleaned[from + |part| - 1];
      assert CleanedFrom(value, part, from);
    }
  }

  /** A word that neither begins nor ends with an underscore is its own part. */
  predicate Tidy(s: string)
  {
    s != "" && Word(s) && s[0] != '_' && s[|s| - 1] != '_'
  }

  lemma TidyPart(s: string, part: string)
    requires Tidy(s) && IsPart(s, part)
    ensures part == s
  {
    assert Solid(s[0]) && Solid(s[|s| - 1]);
    var from: nat :| CleanedFrom(s, part, from);
    assert from == 0 && |part| == |s|;
  }

  // ------------------------------------------------------------ text and stem

  /** mcp__<server>__<tool> with both parts cleaned. */
  ghost predicate IsText(id: Identity, t: string)
  {
    exists server, tool ::
      IsPart(id.server, server) && IsPart(id.tool, tool) && t == "mcp__" + server + "__" + tool
  }

  lemma BaseIsText(id: Identity)
    ensures IsText(id, Base(id))
  {
    SafePartIsPart(id.server);
    SafePartIsPart(id.tool);
    assert Base(id) == "mcp__" + SafePart(id.server) + "__" + SafePart(id.tool);
  }

  /** The longest beginning of `t` within `room` characters that does not end in an
      underscore. */
  predicate IsStem(t: string, room: int, stem: string)
  {
    && stem != "" && |stem| <= room && stem <= t && stem[|stem| - 1] != '_'
    && forall k :: |stem| <= k < |t| && k < room ==> t[k] == '_'
  }

  lemma StemIsStem(t: string, suffixLength: nat)
    requires "mcp__" <= t && suffixLength < MAX_LENGTH
    ensures IsStem(t, MAX_LENGTH - suffixLength, Stem(t, suffixLength))
  {
    var room := MAX_LENGTH - suffixLength;
    var cut := if |t| <= room then t else t[..room];
    assert cut[0] == 'm';
    assert Stem(t, suffixLength) == RStrip(cut);
  }

  /** The name is `t` cut to make room for the suffix. */
  predicate Suffixed(t: string, suffix: string, name: string)
  {
    exists n: nat :: n <= |t| && IsStem(t, MAX_LENGTH - |suffix| - 1, t[..n]) && name == t[..n] + "_" + suffix
  }

  lemma SuffixedIs(t: string, suffix: string)
    requires "mcp__" <= t && |suffix| + 1 < MAX_LENGTH
    ensures WithSuffix(t, suffix).Some? && Suffixed(t, suffix, WithSuffix(t, suffix).value)
  {
    var stem := Stem(t, |suffix| + 1);
    StemIsStem(t, |suffix| + 1);
    assert t[..|stem|] == stem;
  }

  // ------------------------------------------- the text determines everything

  lemma CleanedOnce(value: string, part: string, from: nat, other: string, start: nat)
    requires CleanedFrom(value, part, from) && CleanedFrom(value, other, start)
    ensures part == other
  {
    assert from == start && |part| == |other|;
  }

  lemma OnePart(value: string, part: string)
    requires IsPart(value, part)
    ensures part == SafePart(value)
  {
    SafePartIsPart(value);
    if !(forall k :: 0 <= k < |value| ==> !Solid(value[k])) {
      var from: nat :| CleanedFrom(value, part, from);
      var start: nat :| CleanedFrom(value, SafePart(value), start);
      CleanedOnce(value, part, from, SafePart(value), start);
    }
  }

  lemma OneText(id: Identity, t: string)
    requires IsText(id, t)
    ensures t == Base(id)
  {
    var server, tool :| IsPart(id.server, server) && IsPart(id.tool, tool) && t == "mcp__" + server + "__" + tool;
    OnePart(id.server, server);
    OnePart(id.tool, tool);
  }

  lemma OneSuffixed(t: string, suffix: string, name: string)
    requires "mcp__" <= t && |suffix| + 1 < MAX_LENGTH && Suffixed(t, suffix, name)
    ensures WithSuffix(t, suffix) == Some(name)
  {
    SuffixedIs(t, suffix);
    var given := WithSuffix(t, suffix).value;
    var room := MAX_LENGTH - |suffix| - 1;
    var m: nat :| m <= |t| && IsStem(t, room, t[..m]) && name == t[..m] + "_" + suffix;
    var n: nat :| n <= |t| && IsStem(t, room, t[..n]) && given == t[..n] + "_" + suffix;
    assert t[n - 1] == t[..n][n - 1] && t[m - 1] == t[..m][m - 1];
    assert m == n;
  }

  /** The name an identity would have alone: its text, or if that is longer than 64
      characters, its beginning with 8 digits of the digest of server and tool. */
  ghost predicate Prefers(h: Hashes, id: Identity, name: string)
  {
    exists t :: IsText(id, t) &&
      if |t| <= MAX_LENGTH then name == t else Suffixed(t, Take(h.sha1(id.server + "\0" + id.tool), 8), name)
  }

  lemma InitialIsPreferred(b: Batch, id: Identity)
    requires Valid(b)
    ensures Prefers(b.h, id, Initial(b, id))
  {
    var t, digest := Base(id), Take(b.h.sha1(IdentitySeed(id)), 8);
    BaseIsText(id);
    assert |b.h.sha1(IdentitySeed(id))| == 40;
    SuffixedIs(t, digest);
  }

  lemma PrefersIff(b: Batch, id: Identity, name: string)
    requires Valid(b)
    ensures Prefers(b.h, id, name) <==> name == Initial(b, id)
  {
    InitialIsPreferred(b, id);
    if Prefers(b.h, id, name) {
      var digest := Take(b.h.sha1(IdentitySeed(id)), 8);
      var u :| IsText(id, u) && if |u| <= MAX_LENGTH then name == u else Suffixed(u, digest, name);
      OneText(id, u);
      if |u| > MAX_LENGTH {
        OneSuffixed(u, digest, name);
      }
    }
  }

  // --------------------------------------------------------------- theorems

  /** Nobody else wants the preferred name. */
  ghost predicate Uncontested(b: Batch, id: Identity, name: string)
  {
    name !in b.reserved && forall other :: other in b.ids && Prefers(b.h, other, name) ==> other == id
  }

  /** A preferred name that is neither reserved nor preferred by another identity stands. */
  lemma UncontestedNameStands(b: Batch, id: Identity, name: string)
    requires Valid(b) && id in b.ids && Prefers(b.h, id, name) && Uncontested(b, id, name)
    ensures NameOf(b, id) == Some(name)
  {
    PrefersIff(b, id, name);
    forall other | other in b.ids && Initial(b, other) == Initial(b, id)
      ensures other == id
    {
      PrefersIff(b, other, name);
    }
  }

  lemma TidyIsPart(s: string)
    requires Tidy(s)
    ensures IsPart(s, s)
  {
    assert Solid(s[0]) && CleanedFrom(s, s, 0);
  }

  lemma TidyText(id: Identity)
    requires Tidy(id.server) && Tidy(id.tool)
    ensures IsText(id, "mcp__" + id.server + "__" + id.tool)
  {
    TidyIsPart(id.server);
    TidyIsPart(id.tool);
  }

  lemma ShortTextIsPreferred(h: Hashes, id: Identity, t: string)
    requires IsText(id, t) && |t| <= 64
    ensures Prefers(h, id, t)
  {
  }

  /** For a server and a tool that are tidy words this is mcp__<server>__<tool> as written. */
  lemma TidyNameStands(b: Batch, id: Identity, t: string)
    requires Valid(b) && id in b.ids && Tidy(id.server) && Tidy(id.tool)
    requires t == "mcp__" + id.server + "__" + id.tool && |t| <= 64 && Uncontested(b, id, t)
    ensures NameOf(b, id) == Some(t)
  {
    TidyText(id);
    ShortTextIsPreferred(b.h, id, t);
    UncontestedNameStands(b, id, t);
  }

  /** What the digests cover: the metadata only where another identity of the batch has the
      same server and tool. */
  ghost function WholeSeed(b: Batch, id: Identity): string
  {
    id.server + "\0" + id.tool +
      if exists other :: other in b.ids && other != id && other.server == id.server && other.tool == id.tool
      then "\0metadata:" + id.metadata else ""
  }

  /** The name with the full digest that every member of a contested group is promoted to. */
  ghost predicate Promoted(b: Batch, id: Identity, name: string)
  {
    exists t :: IsText(id, t) && Suffixed(t, b.h.sha1(WholeSeed(b, id)), name)
  }

  lemma SeedIsWhole(b: Batch, id: Identity)
    ensures Seed(b, id) == WholeSeed(b, id)
  {
    assert IdentitySeed(id) + "\0metadata:" + id.metadata == IdentitySeed(id) + ("\0metadata:" + id.metadata);
    assert IdentitySeed(id) + "" == IdentitySeed(id);
  }

  lemma PromotedIff(b: Batch, id: Identity, name: string)
    requires Valid(b)
    ensures Promoted(b, id, name) <==> name == Full(b, id)
  {
    SeedIsWhole(b, id);
    var t, digest := Base(id), b.h.sha1(Seed(b, id));
    assert |digest| == 40;
    BaseIsText(id);
    SuffixedIs(t, digest);
    if Promoted(b, id, name) {
      var u :| IsText(id, u) && Suffixed(u, digest, name);
      OneText(id, u);
      OneSuffixed(t, digest, name);
    }
  }

  /** Every name is the uncontested preferred one, the promoted one, or the text cut for 12
      digits of a second digest and at least 8 digits of a number; the first exactly if it is
      uncontested. */
  lemma NameShape(b: Batch, id: Identity, preferred: string)
    requires Valid(b) && id in b.ids && Prefers(b.h, id, preferred) && NameOf(b, id).Some?
    ensures var name := NameOf(b, id).value;
            if Uncontested(b, id, preferred) then name == preferred
            else Promoted(b, id, name) || FallenBack(b, id, name)
  {
    if Uncontested(b, id, preferred) {
      UncontestedNameStands(b, id, preferred);
    } else {
      ContestedIsPending(b, id, preferred);
      if Digested(b, id) {
        PromotedIff(b, id, Full(b, id));
      } else {
        FallbackShape(b, id);
      }
    }
  }

  lemma ContestedIsPending(b: Batch, id: Identity, preferred: string)
    requires Valid(b) && id in b.ids && Prefers(b.h, id, preferred) && !Uncontested(b, id, preferred)
    ensures !Preferred(b, id)
  {
    PrefersIff(b, id, preferred);
    if preferred !in b.reserved {
      var other :| other in b.ids && Prefers(b.h, other, preferred) && other != id;
      PrefersIff(b, other, preferred);
    }
  }

  ghost predicate FallenBack(b: Batch, id: Identity, name: string)
  {
    exists t, digits :: IsText(id, t) && |digits| >= 8 && AllHex(digits)
                        && Suffixed(t, Take(b.h.sha256(WholeSeed(b, id)), 12) + "_" + digits, name)
  }

  lemma FallbackShape(b: Batch, id: Identity)
    requires Valid(b) && id in Unresolved(b) && Fallback(b, id).Some?
    ensures FallenBack(b, id, Fallback(b, id).value)
  {
    var k := FallbackFinds(b, id);
    SeedIsWhole(b, id);
    BaseIsText(id);
    var digits := Hex8(Discriminator(Rank(b, id), k, Population(b)));
    SuffixedIs(Base(id), Take(b.h.sha256(WholeSeed(b, id)), 12) + "_" + digits);
  }

  lemma UsedByPreferredMeans(b: Batch, name: string) returns (x: Identity)
    requires name in UsedByPreferred(b) && name !in b.reserved
    ensures x in b.ids && Initial(b, x) == name && Preferred(b, x)
  {
    var f := (y: Identity) => Initial(b, y);
    assert name in Image(b.ids - Pending(b), f);
    x :| x in b.ids - Pending(b) && Initial(b, x) == name;
  }

  lemma DigestedMeans(b: Batch, id: Identity)
    requires id in Pending(b) && Full(b, id) !in UsedByPreferred(b)
    requires forall other :: other in b.ids && other != id ==> Full(b, other) != Full(b, id)
    ensures NameOf(b, id) == Some(Full(b, id))
  {
    assert Digested(b, id);
  }

  /** A contested identity keeps its promoted name if nobody else is promoted to it and it
      is neither reserved nor somebody's uncontested name. */
  lemma PromotedNameStands(b: Batch, id: Identity, preferred: string, name: string)
    requires Valid(b) && id in b.ids && Prefers(b.h, id, preferred) && !Uncontested(b, id, preferred)
    requires Promoted(b, id, name) && name !in b.reserved
    requires forall other :: other in b.ids && other != id ==> !Promoted(b, other, name) && !Prefers(b.h, other, name)
    ensures NameOf(b, id) == Some(name)
  {
    ContestedIsPending(b, id, preferred);
    PromotedIff(b, id, name);
    if name in UsedByPreferred(b) {
      var x := UsedByPreferredMeans(b, name);
      PrefersIff(b, x, name);
    }
    forall other | other in b.ids && other != id
      ensures Full(b, other) != name
    {
      PromotedIff(b, other, name);
    }
    DigestedMeans(b, id);
  }
}
