/** Which public name an MCP tool gets: koder_agent/agentic/agent.py, the three-stage
    allocator. Both hashes are arbitrary functions to hexadecimal strings, so nothing
    below relies on their quality.

    `NameOf` gives the name of an identity as a function of the *set* of identities and
    the reserved names, with no order in it. The method in McpAllocator follows the
    source's loops and is proved to hand out exactly these names.
 */
module McpAllocation {
  import opened Prelude
  import opened McpNameText

  datatype Identity = Identity(server: string, tool: string, metadata: string)

  datatype Hashes = Hashes(sha1: string -> string, sha256: string -> string)

  ghost predicate ValidHashes(h: Hashes)
  {
    && (forall s :: |h.sha1(s)| == 40 && AllHex(h.sha1(s)))
    && (forall s :: |h.sha256(s)| == 64 && AllHex(h.sha256(s)))
  }

  // ------------------------------------------------------- names of one tool

  function IdentitySeed(id: Identity): string
  {
    id.server + "\0" + id.tool
  }

  /** The seed names the metadata only where server and tool are not unique. */
  function SeedOf(id: Identity, shared: bool): string
  {
    if shared then IdentitySeed(id) + "\0metadata:" + id.metadata else IdentitySeed(id)
  }

  function Base(id: Identity): string
  {
    BaseName(id.server, id.tool)
  }

  /** s[:n] */
  function Take(s: string, n: nat): (r: string)
    ensures |r| <= n && r <= s
  {
    if |s| <= n then s else s[..n]
  }

  /** _shorten_mcp_tool_name. */
  function Shorten(h: Hashes, baseName: string, seed: string, force: bool, hashLength: nat): string
    requires hashLength <= DISAMBIGUATION_HASH_LENGTH
  {
    if !force && |baseName| <= MAX_LENGTH then baseName
    else WithSuffix(baseName, Take(h.sha1(seed), hashLength)).value
  }

  lemma ShortenFits(h: Hashes, baseName: string, seed: string, force: bool, hashLength: nat)
    requires ValidHashes(h) && hashLength <= DISAMBIGUATION_HASH_LENGTH
    requires Word(baseName) && "mcp__" <= baseName
    ensures PublicName(Shorten(h, baseName, seed, force, hashLength))
  {
    assert AllHex(h.sha1(seed));
    assert Word(Take(h.sha1(seed), hashLength));
  }

  /** What a provider accepts: 1 to 64 word characters. */
  predicate PublicName(n: string)
  {
    1 <= |n| <= MAX_LENGTH && Word(n)
  }

  function Secondary(h: Hashes, seed: string): string
  {
    Take(h.sha256(seed), SECONDARY_HASH_LENGTH)
  }

  /** A fallback candidate; None is the name-limit error. */
  function Candidate(h: Hashes, baseName: string, seed: string, discriminator: nat): Option<string>
  {
    WithSuffix(baseName, Secondary(h, seed) + "_" + Hex8(discriminator))
  }

  lemma CandidateFits(h: Hashes, baseName: string, seed: string, d: nat)
    requires ValidHashes(h) && Word(baseName) && "mcp__" <= baseName
    ensures Candidate(h, baseName, seed, d).Some? <==> d < Pow16(49)
    ensures Candidate(h, baseName, seed, d).Some? ==> PublicName(Candidate(h, baseName, seed, d).value)
  {
    assert |h.sha256(seed)| == 64 && AllHex(h.sha256(seed));
    HexLength(d, 49);
    assert Word(Secondary(h, seed) + "_" + Hex8(d));
  }

  lemma Regroup(stem: string, secondary: string, digits: string)
    ensures stem + "_" + (secondary + "_" + digits) == (stem + "_" + secondary) + "_" + digits
  {
  }

  /** Equal candidates have equal discriminators, whatever the base names and hashes. */
  lemma CandidatesDiffer(h: Hashes, b1: string, s1: string, d1: nat, b2: string, s2: string, d2: nat)
    requires ValidHashes(h)
    requires Candidate(h, b1, s1, d1).Some? && Candidate(h, b1, s1, d1) == Candidate(h, b2, s2, d2)
    ensures d1 == d2
  {
    assert |h.sha256(s1)| == 64 && |h.sha256(s2)| == 64;
    var v1, v2 := Secondary(h, s1) + "_" + Hex8(d1), Secondary(h, s2) + "_" + Hex8(d2);
    var x := Stem(b1, |v1| + 1) + "_" + Secondary(h, s1);
    var y := Stem(b2, |v2| + 1) + "_" + Secondary(h, s2);
    Regroup(Stem(b1, |v1| + 1), Secondary(h, s1), Hex8(d1));
    Regroup(Stem(b2, |v2| + 1), Secondary(h, s2), Hex8(d2));
    LastPartUnique(x, Hex8(d1), y, Hex8(d2));
    Hex8Injective(d1, d2);
  }

  // -------------------------------------------------------- order of identities

  predicate StrLess(a: string, b: string)
  {
    b != "" && (a == "" || a[0] < b[0] || (a[0] == b[0] && StrLess(a[1..], b[1..])))
  }

  lemma {:induction false} StrTotal(a: string, b: string)
    ensures StrLess(a, b) || StrLess(b, a) || a == b
    ensures !(StrLess(a, b) && StrLess(b, a)) && !StrLess(a, a)
  {
    if a != "" && b != "" {
      StrTotal(a[1..], b[1..]);
      StrTotal(a[1..], a[1..]);
      if a[0] == b[0] && a[1..] == b[1..] {
        assert a == [a[0]] + a[1..] == b;
      }
    } else if a != "" {
      StrTotal(a[1..], a[1..]);
    }
  }

  lemma {:induction false} StrTransitive(a: string, b: string, c: string)
    requires StrLess(a, b) && StrLess(b, c)
    ensures StrLess(a, c)
  {
    if a != "" && a[0] == b[0] == c[0] {
      StrTransitive(a[1..], b[1..], c[1..]);
    }
  }

  /** Python's order of (server, tool, metadata) tuples. */
  predicate Less(a: Identity, b: Identity)
  {
    || StrLess(a.server, b.server)
    || (a.server == b.server && StrLess(a.tool, b.tool))
    || (a.server == b.server && a.tool == b.tool && StrLess(a.metadata, b.metadata))
  }

  lemma LessTotal(a: Identity, b: Identity)
    ensures Less(a, b) || Less(b, a) || a == b
    ensures !(Less(a, b) && Less(b, a)) && !Less(a, a)
  {
    StrTotal(a.server, b.server);
    StrTotal(a.tool, b.tool);
    StrTotal(a.metadata, b.metadata);
    StrTotal(a.server, a.server);
    StrTotal(a.tool, a.tool);
    StrTotal(a.metadata, a.metadata);
  }

  lemma LessTransitive(a: Identity, b: Identity, c: Identity)
    requires Less(a, b) && Less(b, c)
    ensures Less(a, c)
  {
    if StrLess(a.server, b.server) && StrLess(b.server, c.server) {
      StrTransitive(a.server, b.server, c.server);
    }
    if StrLess(a.tool, b.tool) && StrLess(b.tool, c.tool) {
      StrTransitive(a.tool, b.tool, c.tool);
    }
    if StrLess(a.metadata, b.metadata) && StrLess(b.metadata, c.metadata) {
      StrTransitive(a.metadata, b.metadata, c.metadata);
    }
  }

  // --------------------------------------------------------------- the stages

  ghost function Image<T>(s: set<T>, f: T -> string): set<string>
  {
    set x | x in s :: f(x)
  }

  /** One allocation problem. */
  datatype Batch = Batch(h: Hashes, ids: set<Identity>, reserved: set<string>)

  ghost predicate Valid(b: Batch)
  {
    ValidHashes(b.h)
  }

  ghost predicate Shared(b: Batch, id: Identity)
  {
    exists other :: other in b.ids && other != id && other.server == id.server && other.tool == id.tool
  }

  ghost function Seed(b: Batch, id: Identity): string
  {
    SeedOf(id, Shared(b, id))
  }

  ghost function Initial(b: Batch, id: Identity): string
  {
    Shorten(b.h, Base(id), IdentitySeed(id), false, HASH_LENGTH)
  }

  /** Stage 1: a preferred name that nobody else prefers and nobody reserved. */
  ghost predicate Preferred(b: Batch, id: Identity)
  {
    && id in b.ids && Initial(b, id) !in b.reserved
    && forall other :: other in b.ids && Initial(b, other) == Initial(b, id) ==> other == id
  }

  ghost function Pending(b: Batch): set<Identity>
  {
    set id | id in b.ids && !Preferred(b, id)
  }

  ghost function UsedByPreferred(b: Batch): set<string>
  {
    b.reserved + Image(b.ids - Pending(b), id => Initial(b, id))
  }

  ghost function Full(b: Batch, id: Identity): string
  {
    Shorten(b.h, Base(id), Seed(b, id), true, DISAMBIGUATION_HASH_LENGTH)
  }

  /** Stage 2: a full digest that no other pending identity has and nobody uses. */
  ghost predicate Digested(b: Batch, id: Identity)
  {
    && id in Pending(b) && Full(b, id) !in UsedByPreferred(b)
    && forall other :: other in Pending(b) && Full(b, other) == Full(b, id) ==> other == id
  }

  ghost function Unresolved(b: Batch): set<Identity>
  {
    set id | id in Pending(b) && !Digested(b, id)
  }

  ghost function Used(b: Batch): set<string>
  {
    UsedByPreferred(b) + Image(Pending(b) - Unresolved(b), id => Full(b, id))
  }

  ghost function Below(b: Batch, id: Identity): set<Identity>
  {
    set other | other in Unresolved(b) && Less(other, id)
  }

  ghost function Rank(b: Batch, id: Identity): nat
  {
    |Below(b, id)|
  }

  ghost function Population(b: Batch): nat
  {
    if |Unresolved(b)| >= 1 then |Unresolved(b)| else 1
  }

  function Discriminator(rank: nat, probe: nat, population: nat): nat
  {
    rank + probe * population
  }

  ghost function Probed(b: Batch, id: Identity, probe: nat): Option<string>
  {
    Candidate(b.h, Base(id), Seed(b, id), Discriminator(Rank(b, id), probe, Population(b)))
  }

  /** Stage 3: the first candidate that is free; None when the name limit is hit. */
  ghost function FirstFree(f: nat -> Option<string>, used: set<string>, probe: nat): Option<string>
    decreases |used| + 1 - probe
  {
    if probe > |used| then None
    else if f(probe).None? || f(probe).value !in used then f(probe)
    else FirstFree(f, used, probe + 1)
  }

  ghost function Prober(b: Batch, id: Identity): nat -> Option<string>
  {
    (k: nat) => Probed(b, id, k)
  }

  ghost function Fallback(b: Batch, id: Identity): Option<string>
  {
    FirstFree(Prober(b, id), Used(b), 0)
  }

  ghost function NameOf(b: Batch, id: Identity): Option<string>
  {
    if Preferred(b, id) then Some(Initial(b, id))
    else if Digested(b, id) then Some(Full(b, id))
    else Fallback(b, id)
  }

  // ----------------------------------------------------------------- ranks

  lemma RankBelowPopulation(b: Batch, id: Identity)
    requires id in Unresolved(b)
    ensures Rank(b, id) < Population(b) <= |b.ids|
  {
    LessTotal(id, id);
    assert Below(b, id) <= Unresolved(b) - {id};
    Larger(Below(b, id), Unresolved(b) - {id});
    Larger(Unresolved(b), b.ids);
  }

  lemma {:induction false} Larger<T>(small: set<T>, large: set<T>)
    requires small <= large
    ensures |small| <= |large|
  {
    assert large == small + (large - small);
  }

  lemma RankIncreases(b: Batch, x: Identity, y: Identity)
    requires x in Unresolved(b) && Less(x, y)
    ensures Rank(b, x) < Rank(b, y)
  {
    LessTotal(x, x);
    assert x !in Below(b, x) && x in Below(b, y);
    forall z | z in Below(b, x)
      ensures z in Below(b, y)
    {
      LessTransitive(z, x, y);
    }
    Larger(Below(b, x) + {x}, Below(b, y));
  }

  /** Numbers with different residues below `p` never meet when stepped by `p`. */
  lemma ResiduesApart(r1: nat, k1: nat, r2: nat, k2: nat, p: nat)
    requires r1 < p && r2 < p && Discriminator(r1, k1, p) == Discriminator(r2, k2, p)
    ensures r1 == r2 && k1 == k2
  {
    var d := k2 - k1;
    assert r1 - r2 == d * p;
    if d != 0 {
      MultipleIsLarge(d, p);
    }
  }

  lemma MultipleIsLarge(d: int, p: nat)
    requires d != 0
    ensures d * p >= p || d * p + p <= 0
  {
  }

  /** Unresolved identities never compete for a candidate, and one identity's own
      candidates are pairwise different. */
  lemma ProbesApart(b: Batch, x: Identity, i: nat, y: Identity, j: nat)
    requires Valid(b) && x in Unresolved(b) && y in Unresolved(b)
    requires Probed(b, x, i).Some? && Probed(b, x, i) == Probed(b, y, j)
    ensures x == y && i == j
  {
    CandidatesDiffer(b.h, Base(x), Seed(b, x), Discriminator(Rank(b, x), i, Population(b)),
                     Base(y), Seed(b, y), Discriminator(Rank(b, y), j, Population(b)));
    RankBelowPopulation(b, x);
    RankBelowPopulation(b, y);
    ResiduesApart(Rank(b, x), i, Rank(b, y), j, Population(b));
    LessTotal(x, y);
    if Less(x, y) {
      RankIncreases(b, x, y);
    } else if Less(y, x) {
      RankIncreases(b, y, x);
    }
  }

  // ------------------------------------------------------------- the fallback

  ghost predicate Injective(f: nat -> Option<string>)
  {
    forall i, j :: f(i).Some? && f(i) == f(j) ==> i == j
  }

  /** The first `n` candidates are taken. */
  ghost predicate Taken(f: nat -> Option<string>, used: set<string>, n: nat)
  {
    forall i: nat :: i < n ==> f(i).Some? && f(i).value in used
  }

  /** Pigeonhole: distinct candidates cannot all be taken for longer than |used|. */
  lemma {:induction false} TakenIsShort(f: nat -> Option<string>, used: set<string>, n: nat)
    requires Injective(f) && Taken(f, used, n)
    ensures n <= |used|
  {
    if n > 0 {
      var last := f(n - 1).value;
      assert Taken(f, used - {last}, n - 1);
      TakenIsShort(f, used - {last}, n - 1);
    }
  }

  /** The probe stops within |used| + 1 tries, at the first candidate that is free or
      does not fit. */
  lemma {:induction false} FirstFreeFinds(f: nat -> Option<string>, used: set<string>, probe: nat) returns (k: nat)
    requires Injective(f) && Taken(f, used, probe)
    ensures probe <= k <= |used| && FirstFree(f, used, probe) == f(k)
    ensures Taken(f, used, k) && (f(k).None? || f(k).value !in used)
    decreases |used| + 1 - probe
  {
    TakenIsShort(f, used, probe);
    if f(probe).None? || f(probe).value !in used {
      k := probe;
    } else {
      k := FirstFreeFinds(f, used, probe + 1);
    }
  }

  lemma ProberIsInjective(b: Batch, id: Identity)
    requires Valid(b) && id in Unresolved(b)
    ensures Injective(Prober(b, id))
  {
    var f := Prober(b, id);
    forall i: nat, j: nat | f(i).Some? && f(i) == f(j)
      ensures i == j
    {
      ProbesApart(b, id, i, id, j);
    }
  }

  lemma FallbackFinds(b: Batch, id: Identity) returns (k: nat)
    requires Valid(b) && id in Unresolved(b)
    ensures k <= |Used(b)| && Fallback(b, id) == Probed(b, id, k)
    ensures Probed(b, id, k).None? || Probed(b, id, k).value !in Used(b)
  {
    ProberIsInjective(b, id);
    k := FirstFreeFinds(Prober(b, id), Used(b), 0);
  }

  // --------------------------------------------------------------- theorems

  /** Every name is acceptable to a provider and not reserved. */
  lemma NameIsPublic(b: Batch, id: Identity)
    requires Valid(b) && id in b.ids
    ensures NameOf(b, id).Some? ==> PublicName(NameOf(b, id).value) && NameOf(b, id).value !in b.reserved
  {
    if Preferred(b, id) {
      ShortenFits(b.h, Base(id), IdentitySeed(id), false, HASH_LENGTH);
    } else if Digested(b, id) {
      ShortenFits(b.h, Base(id), Seed(b, id), true, DISAMBIGUATION_HASH_LENGTH);
    } else {
      var k := FallbackFinds(b, id);
      CandidateFits(b.h, Base(id), Seed(b, id), Discriminator(Rank(b, id), k, Population(b)));
    }
  }

  lemma PreferredNameIsUsed(b: Batch, id: Identity)
    requires Preferred(b, id)
    ensures Initial(b, id) in UsedByPreferred(b) && Initial(b, id) in Used(b)
  {
    assert id in b.ids - Pending(b);
    var f := (x: Identity) => Initial(b, x);
    assert f(id) in Image(b.ids - Pending(b), f);
  }

  lemma DigestedNameIsUsed(b: Batch, id: Identity)
    requires Digested(b, id)
    ensures Full(b, id) in Used(b)
  {
    assert id in Pending(b) - Unresolved(b);
  }

  /** Different identities get different names, even with constant hashes. */
  lemma NamesAreDistinct(b: Batch, x: Identity, y: Identity)
    requires Valid(b) && x in b.ids && y in b.ids && x != y
    ensures NameOf(b, x).Some? && NameOf(b, y).Some? ==> NameOf(b, x) != NameOf(b, y)
  {
    if NameOf(b, x).Some? && NameOf(b, y).Some? {
      if x in Unresolved(b) {
        FallbackApart(b, x, y);
      } else if y in Unresolved(b) {
        FallbackApart(b, y, x);
      } else {
        if Preferred(b, x) {
          PreferredNameIsUsed(b, x);
        }
        if Preferred(b, y) {
          PreferredNameIsUsed(b, y);
        }
      }
    }
  }

  lemma FallbackApart(b: Batch, x: Identity, y: Identity)
    requires Valid(b) && x in Unresolved(b) && y in b.ids && x != y
    requires NameOf(b, x).Some? && NameOf(b, y).Some?
    ensures NameOf(b, x) != NameOf(b, y)
  {
    var i := FallbackFinds(b, x);
    if y in Unresolved(b) {
      var j := FallbackFinds(b, y);
      if NameOf(b, x) == NameOf(b, y) {
        ProbesApart(b, x, i, y, j);
      }
    } else if Preferred(b, y) {
      PreferredNameIsUsed(b, y);
    } else {
      DigestedNameIsUsed(b, y);
    }
  }

  lemma DiscriminatorBound(rank: nat, probe: nat, p: nat, n: nat, m: nat)
    requires rank < p <= n && probe < m
    ensures Discriminator(rank, probe, p) < n * m
  {
    assert rank + probe * p < (probe + 1) * p;
    assert (probe + 1) * p <= m * p <= m * n;
  }

  /** Only an unresolved identity takes a fallback. */
  lemma ResolvedIsNamed(b: Batch, id: Identity)
    requires id in b.ids && id !in Unresolved(b)
    ensures NameOf(b, id).Some?
  {
  }

  lemma UnresolvedTakesFallback(b: Batch, id: Identity)
    requires id in Unresolved(b)
    ensures NameOf(b, id) == Fallback(b, id)
  {
  }

  /** An upper bound for the discriminators that the probes of a batch can reach. */
  function Candidates(b: Batch): nat
  {
    |b.ids| * (|b.ids| + |b.reserved| + 1)
  }

  lemma CandidatesProduct(b: Batch, rank: nat, probe: nat, p: nat)
    requires rank < p <= |b.ids| && probe <= |b.ids| + |b.reserved|
    ensures Discriminator(rank, probe, p) < Candidates(b)
  {
    DiscriminatorBound(rank, probe, p, |b.ids|, |b.ids| + |b.reserved| + 1);
  }

  /** A probe within the bound has a discriminator below it. */
  lemma ProbeIsSmall(b: Batch, id: Identity, k: nat, limit: nat)
    requires id in Unresolved(b) && k <= |Used(b)| && Candidates(b) <= limit
    ensures Discriminator(Rank(b, id), k, Population(b)) < limit
  {
    RankBelowPopulation(b, id);
    UsedIsSmall(b);
    CandidatesProduct(b, Rank(b, id), k, Population(b));
  }

  lemma FallbackIsNamed(b: Batch, id: Identity, limit: nat)
    requires Valid(b) && id in Unresolved(b) && Candidates(b) <= limit <= Pow16(49)
    ensures Fallback(b, id).Some?
  {
    var k := FallbackFinds(b, id);
    ProbeIsSmall(b, id, k, limit);
    CandidateFits(b.h, Base(id), Seed(b, id), Discriminator(Rank(b, id), k, Population(b)));
  }

  /** The only way to fail is the length limit, and that takes 16^49 candidates. */
  lemma EveryIdentityIsNamed(b: Batch, id: Identity)
    requires Valid(b) && id in b.ids && Candidates(b) <= Pow16(49)
    ensures NameOf(b, id).Some?
  {
    if id in Unresolved(b) {
      UnresolvedTakesFallback(b, id);
      FallbackIsNamed(b, id, Candidates(b));
    } else {
      ResolvedIsNamed(b, id);
    }
  }

  /** Every taken name is reserved or belongs to an identity of its own. */
  lemma UsedIsSmall(b: Batch)
    ensures |Used(b)| <= |b.ids| + |b.reserved|
  {
    var first, second := b.ids - Pending(b), Pending(b) - Unresolved(b);
    ImageSmaller(first, id => Initial(b, id));
    ImageSmaller(second, id => Full(b, id));
    Larger(first + second, b.ids);
    assert first !! second;
  }

  lemma {:induction false} ImageSmaller<T>(s: set<T>, f: T -> string)
    ensures |Image(s, f)| <= |s|
  {
    if s != {} {
      var x :| x in s;
      ImageSmaller(s - {x}, f);
      assert Image(s, f) == Image(s - {x}, f) + {f(x)};
    }
  }
}
