/** The loops of koder_agent/agentic/agent.py that deduplicate MCP tools and allocate
    their public names. */
module McpAllocator {
  import opened Prelude
  import opened McpNameText
  import opened McpAllocation

  /** (server index, tool index): where the tool was discovered. */
  type Key = (int, int)

  datatype Entry = Entry(key: Key, identity: Identity)

  datatype Record = Record(key: Key, identity: Identity, baseName: string, seed: string, initialName: string)

  datatype AllocationError = DuplicateIdentity | NameLimit

  ghost function Identities(entries: seq<Entry>): set<Identity>
  {
    set e | e in entries :: e.identity
  }

  /** What enumerating servers and tools guarantees. */
  predicate DistinctKeys(entries: seq<Entry>)
  {
    forall i, j :: 0 <= i < j < |entries| ==> entries[i].key != entries[j].key
  }

  predicate DistinctIdentities(entries: seq<Entry>)
  {
    forall i, j :: 0 <= i < j < |entries| ==> entries[i].identity != entries[j].identity
  }

  // ----------------------------------------------------------- deduplication

  /** The entries whose identity was neither seen nor occurred before. */
  function FirstOccurrences(entries: seq<Entry>, seen: set<Identity>): seq<Entry>
  {
    if entries == [] then []
    else if entries[0].identity in seen then FirstOccurrences(entries[1..], seen)
    else [entries[0]] + FirstOccurrences(entries[1..], seen + {entries[0].identity})
  }

  method Deduplicate(entries: seq<Entry>) returns (unique: seq<Entry>)
    ensures unique == FirstOccurrences(entries, {})
  {
    unique := [];
    var seen: set<Identity> := {};
    for i := 0 to |entries|
      invariant unique + FirstOccurrences(entries[i..], seen) == FirstOccurrences(entries, {})
    {
      var entry := entries[i];
      assert entries[i..][1..] == entries[i + 1..];
      if entry.identity in seen {
        continue;
      }
      seen := seen + {entry.identity};
      unique := unique + [entry];
    }
  }

  lemma IdentitiesOfCons(first: Entry, rest: seq<Entry>)
    ensures Identities([first] + rest) == {first.identity} + Identities(rest)
  {
    assert forall e :: e in [first] + rest <==> e == first || e in rest;
  }

  lemma {:induction false} FirstOccurrencesCover(entries: seq<Entry>, seen: set<Identity>)
    ensures Identities(FirstOccurrences(entries, seen)) == Identities(entries) - seen
    ensures forall e :: e in FirstOccurrences(entries, seen) ==> e in entries
  {
    if entries != [] {
      assert entries == [entries[0]] + entries[1..];
      IdentitiesOfCons(entries[0], entries[1..]);
      if entries[0].identity in seen {
        FirstOccurrencesCover(entries[1..], seen);
      } else {
        FirstOccurrencesCover(entries[1..], seen + {entries[0].identity});
        IdentitiesOfCons(entries[0], FirstOccurrences(entries[1..], seen + {entries[0].identity}));
      }
    }
  }

  lemma {:induction false} FirstOccurrencesDistinct(entries: seq<Entry>, seen: set<Identity>)
    ensures DistinctIdentities(FirstOccurrences(entries, seen))
    ensures DistinctKeys(entries) ==> DistinctKeys(FirstOccurrences(entries, seen))
  {
    if entries != [] {
      var id := entries[0].identity;
      if id in seen {
        FirstOccurrencesDistinct(entries[1..], seen);
      } else {
        FirstOccurrencesDistinct(entries[1..], seen + {id});
        FirstOccurrencesCover(entries[1..], seen + {id});
        var rest := FirstOccurrences(entries[1..], seen + {id});
        forall i | 0 <= i < |rest|
          ensures rest[i].identity != id && (DistinctKeys(entries) ==> rest[i].key != entries[0].key)
        {
          assert rest[i].identity in Identities(rest);
          assert rest[i] in entries[1..];
        }
      }
    }
  }

  /** Deduplication loses no identity and keeps no two entries of one, so the
      duplicate-identity error of the allocator cannot arise after it. */
  lemma DeduplicatedIsDistinct(entries: seq<Entry>)
    ensures var unique := FirstOccurrences(entries, {});
            && DistinctIdentities(unique) && Identities(unique) == Identities(entries)
            && (DistinctKeys(entries) ==> DistinctKeys(unique))
            && forall e :: e in unique ==> e in entries
  {
    FirstOccurrencesCover(entries, {});
    FirstOccurrencesDistinct(entries, {});
  }

  // ------------------------------------------------------------------ sorting

  /** The same elements, none twice. */
  ghost predicate Rearranged<T(!new)>(a: seq<T>, b: seq<T>)
  {
    && |a| == |b| && (forall x :: x in a <==> x in b) && NoDuplicates(b)
  }

  ghost predicate NoDuplicates<T>(a: seq<T>)
  {
    forall i, j :: 0 <= i < j < |a| ==> a[i] != a[j]
  }

  ghost predicate Ordered<T>(idOf: T -> Identity, a: seq<T>)
  {
    forall i, j :: 0 <= i < j < |a| ==> !Less(idOf(a[j]), idOf(a[i]))
  }

  method InsertSorted<T(!new)>(idOf: T -> Identity, sorted: seq<T>, x: T) returns (r: seq<T>)
    requires Ordered(idOf, sorted) && NoDuplicates(sorted) && x !in sorted
    ensures Ordered(idOf, r) && Rearranged(sorted + [x], r)
  {
    var k := |sorted|;
    while k > 0 && Less(idOf(x), idOf(sorted[k - 1]))
      invariant 0 <= k <= |sorted|
      invariant forall i :: k <= i < |sorted| ==> Less(idOf(x), idOf(sorted[i]))
    {
      k := k - 1;
    }
    r := sorted[..k] + [x] + sorted[k..];
    InsertedInOrder(idOf, sorted, x, k);
    InsertedRearranged(sorted, x, k);
  }

  lemma InsertedInOrder<T(!new)>(idOf: T -> Identity, sorted: seq<T>, x: T, k: nat)
    requires Ordered(idOf, sorted) && k <= |sorted|
    requires k > 0 ==> !Less(idOf(x), idOf(sorted[k - 1]))
    requires forall i :: k <= i < |sorted| ==> Less(idOf(x), idOf(sorted[i]))
    ensures Ordered(idOf, sorted[..k] + [x] + sorted[k..])
  {
    forall i | 0 <= i < k
      ensures !Less(idOf(x), idOf(sorted[i]))
    {
      if i < k - 1 && Less(idOf(x), idOf(sorted[i])) {
        LessTransitiveOrEqual(idOf(x), idOf(sorted[i]), idOf(sorted[k - 1]));
      }
    }
    forall i | k <= i < |sorted|
      ensures !Less(idOf(sorted[i]), idOf(x))
    {
      LessTotal(idOf(x), idOf(sorted[i]));
    }
  }

  lemma InsertedRearranged<T(!new)>(sorted: seq<T>, x: T, k: nat)
    requires NoDuplicates(sorted) && x !in sorted && k <= |sorted|
    ensures Rearranged(sorted + [x], sorted[..k] + [x] + sorted[k..])
  {
    assert sorted == sorted[..k] + sorted[k..];
  }

  lemma LessTransitiveOrEqual(a: Identity, b: Identity, c: Identity)
    requires Less(a, b) && !Less(c, b)
    ensures Less(a, c)
  {
    LessTotal(b, c);
    if Less(b, c) {
      LessTransitive(a, b, c);
    }
  }

  /** sorted(items, key=identity) */
  method SortByIdentity<T(!new)>(idOf: T -> Identity, items: seq<T>) returns (r: seq<T>)
    requires NoDuplicates(items)
    ensures Ordered(idOf, r) && Rearranged(items, r)
  {
    r := [];
    for i := 0 to |items|
      invariant Ordered(idOf, r) && Rearranged(items[..i], r)
    {
      assert items[i] !in items[..i];
      ghost var before := r;
      r := InsertSorted(idOf, r, items[i]);
      assert items[..i + 1] == items[..i] + [items[i]];
    }
    assert items[..|items|] == items;
  }

  // ------------------------------------------------------------------ records

  ghost predicate RecordOf(b: Batch, rec: Record)
  {
    && rec.identity in b.ids && rec.baseName == Base(rec.identity)
    && rec.seed == Seed(b, rec.identity) && rec.initialName == Initial(b, rec.identity)
  }

  predicate DistinctRecords(rs: seq<Record>)
  {
    forall i, j :: 0 <= i < j < |rs| ==> rs[i].identity != rs[j].identity && rs[i].key != rs[j].key
  }

  /** One record per identity of the batch. */
  ghost predicate RecordsOf(b: Batch, rs: seq<Record>)
  {
    && DistinctRecords(rs) && (forall rec :: rec in rs ==> RecordOf(b, rec))
    && forall id :: id in b.ids ==> exists rec :: rec in rs && rec.identity == id
  }

  // ------------------------------------------------------------------- groups

  ghost predicate Group(rs: seq<Record>, f: Record -> string, n: string, g: seq<Record>)
  {
    && g != [] && DistinctRecords(g)
    && forall rec :: rec in g <==> rec in rs && f(rec) == n
  }

  /** The defaultdict(list) that collects records under a name. */
  method GroupBy(rs: seq<Record>, f: Record -> string) returns (groups: map<string, seq<Record>>)
    requires DistinctRecords(rs)
    ensures forall rec :: rec in rs ==> f(rec) in groups
    ensures forall n :: n in groups ==> Group(rs, f, n, groups[n])
  {
    groups := map[];
    for i := 0 to |rs|
      invariant forall rec :: rec in rs[..i] ==> f(rec) in groups
      invariant forall n :: n in groups ==> Group(rs[..i], f, n, groups[n])
    {
      var rec := rs[i];
      var n := f(rec);
      var g := if n in groups then groups[n] else [];
      assert rs[..i + 1] == rs[..i] + [rec];
      assert DistinctRecords(g + [rec]) by {
        forall k | 0 <= k < |g|
          ensures g[k].identity != rec.identity && g[k].key != rec.key
        {
          assert g[k] in rs[..i];
        }
      }
      assert Group(rs[..i + 1], f, n, g + [rec]);
      groups := groups[n := g + [rec]];
    }
    assert rs[..|rs|] == rs;
  }

  /** The record has a name of its own among `rs`, and it is free. */
  ghost predicate Solitary(rs: seq<Record>, f: Record -> string, taken: set<string>, rec: Record)
  {
    && rec in rs && f(rec) !in taken
    && forall other :: other in rs && f(other) == f(rec) ==> other == rec
  }

  lemma GroupDecides(rs: seq<Record>, f: Record -> string, taken: set<string>, n: string, g: seq<Record>)
    requires DistinctRecords(rs) && Group(rs, f, n, g)
    ensures forall rec :: rec in g ==> (Solitary(rs, f, taken, rec) <==> |g| == 1 && n !in taken)
  {
    if |g| == 1 {
      assert g == [g[0]];
    } else {
      assert g[0] in g && g[1] in g && g[0] != g[1];
    }
  }

  lemma Concatenate(a: seq<Record>, g: seq<Record>, rs: seq<Record>)
    requires DistinctRecords(rs) && DistinctRecords(a) && DistinctRecords(g)
    requires forall rec :: rec in a || rec in g ==> rec in rs
    requires forall rec :: rec in a ==> rec !in g
    ensures DistinctRecords(a + g)
  {
    forall i, j | 0 <= i < |a| && 0 <= j < |g|
      ensures a[i].identity != g[j].identity && a[i].key != g[j].key
    {
      assert a[i] in a && g[j] in g;
    }
  }

  /** The solitary records outside `todo` have their names; nothing else changed. */
  ghost predicate Claimed(rs: seq<Record>, f: Record -> string, taken: set<string>, before: map<Key, string>,
                          todo: set<string>, names: map<Key, string>)
  {
    && (forall key :: key in names ==>
          key in before || exists rec :: Solitary(rs, f, taken, rec) && f(rec) !in todo && rec.key == key)
    && (forall rec :: Solitary(rs, f, taken, rec) && f(rec) !in todo ==>
          rec.key in names && names[rec.key] == f(rec))
    && (forall key :: key in before && (forall rec :: rec in rs ==> rec.key != key) ==>
          key in names && names[key] == before[key])
    && before.Keys <= names.Keys
  }

  ghost predicate InUse(rs: seq<Record>, f: Record -> string, taken: set<string>, todo: set<string>, used: set<string>)
  {
    forall n :: n in used <==>
      n in taken || exists rec :: Solitary(rs, f, taken, rec) && f(rec) !in todo && f(rec) == n
  }

  lemma ClaimName(rs: seq<Record>, f: Record -> string, taken: set<string>, before: map<Key, string>,
                  todo: set<string>, names: map<Key, string>, rec: Record)
    requires DistinctRecords(rs) && Claimed(rs, f, taken, before, todo, names)
    requires Solitary(rs, f, taken, rec)
    ensures Claimed(rs, f, taken, before, todo - {f(rec)}, names[rec.key := f(rec)])
  {
  }

  lemma ClaimUse(rs: seq<Record>, f: Record -> string, taken: set<string>, todo: set<string>,
      used: set<string>, rec: Record)
    requires InUse(rs, f, taken, todo, used) && Solitary(rs, f, taken, rec)
    ensures InUse(rs, f, taken, todo - {f(rec)}, used + {f(rec)})
  {
  }

  lemma PassGroup(rs: seq<Record>, f: Record -> string, taken: set<string>, before: map<Key, string>,
                  todo: set<string>, names: map<Key, string>, used: set<string>, n: string)
    requires Claimed(rs, f, taken, before, todo, names) && InUse(rs, f, taken, todo, used)
    requires forall rec :: rec in rs && f(rec) == n ==> !Solitary(rs, f, taken, rec)
    ensures Claimed(rs, f, taken, before, todo - {n}, names) && InUse(rs, f, taken, todo - {n}, used)
  {
  }

  /** The loop over name groups that both of the first two stages run: a record alone
      under a free name receives it, every other group is passed on as a whole. The
      groups may come in any order. */
  method ClaimSolitary(rs: seq<Record>, f: Record -> string, before: map<Key, string>, taken: set<string>)
    returns (names: map<Key, string>, used: set<string>, rest: seq<Record>)
    requires DistinctRecords(rs)
    ensures Claimed(rs, f, taken, before, {}, names) && InUse(rs, f, taken, {}, used)
    ensures DistinctRecords(rest)
    ensures forall rec :: rec in rest <==> rec in rs && !Solitary(rs, f, taken, rec)
  {
    names, used, rest := before, taken, [];
    var groups := GroupBy(rs, f);
    var todo := groups.Keys;
    while todo != {}
      invariant todo <= groups.Keys
      invariant Claimed(rs, f, taken, before, todo, names) && InUse(rs, f, taken, todo, used)
      invariant DistinctRecords(rest)
      invariant forall rec :: rec in rest <==> rec in rs && f(rec) !in todo && !Solitary(rs, f, taken, rec)
    {
      var candidate :| candidate in todo;
      var group := groups[candidate];
      GroupDecides(rs, f, taken, candidate, group);
      assert group[0] in group;
      if |group| == 1 && candidate !in used {
        ClaimName(rs, f, taken, before, todo, names, group[0]);
        ClaimUse(rs, f, taken, todo, used, group[0]);
        names := names[group[0].key := candidate];
        used := used + {candidate};
      } else {
        PassGroup(rs, f, taken, before, todo, names, used, candidate);
        Concatenate(rest, group, rs);
        rest := rest + group;
      }
      todo := todo - {candidate};
    }
  }

  // ------------------------------------------------ what the stages leave behind

  /** The dictionary holds the names `nm` of all records whose identity is not left. */
  ghost predicate Allotted(nm: Identity -> Option<string>, rs: seq<Record>, names: map<Key, string>,
      left: set<Identity>)
  {
    && (forall rec :: rec in rs ==> (rec.key in names <==> rec.identity !in left))
    && (forall rec :: rec in rs && rec.key in names ==> nm(rec.identity) == Some(names[rec.key]))
    && (forall key :: key in names ==> exists rec :: rec in rs && rec.key == key)
  }

  ghost predicate Left(rs: seq<Record>, rest: seq<Record>, ids: set<Identity>)
  {
    DistinctRecords(rest) && forall rec :: rec in rest <==> rec in rs && rec.identity in ids
  }

  /** Among the pending records, being solitary means being in `claimed`. */
  ghost predicate Claims(pending: seq<Record>, f: Record -> string, taken: set<string>, claimed: set<Identity>)
  {
    forall rec :: rec in pending ==> (Solitary(pending, f, taken, rec) <==> rec.identity in claimed)
  }

  lemma StageNames(nm: Identity -> Option<string>, rs: seq<Record>, left: set<Identity>, pending: seq<Record>,
                   f: Record -> string, taken: set<string>, claimed: set<Identity>,
                   before: map<Key, string>, names: map<Key, string>)
    requires DistinctRecords(rs) && Left(rs, pending, left) && Allotted(nm, rs, before, left)
    requires Claims(pending, f, taken, claimed) && Claimed(pending, f, taken, before, {}, names)
    requires forall rec :: rec in pending && rec.identity in claimed ==> nm(rec.identity) == Some(f(rec))
    ensures Allotted(nm, rs, names, left - claimed)
  {
    forall rec | rec in rs
      ensures rec.key in names <==> rec.identity !in left - claimed
      ensures rec.key in names ==> nm(rec.identity) == Some(names[rec.key])
    {
      if rec.identity in left {
        assert rec in pending;
        if rec.key in names {
          var r :| Solitary(pending, f, taken, r) && r.key == rec.key;
          assert r == rec;
        }
      } else {
        assert forall r :: r in pending ==> r.key != rec.key;
      }
    }
  }

  lemma StageRest(rs: seq<Record>, left: set<Identity>, pending: seq<Record>, f: Record -> string, taken: set<string>,
                  claimed: set<Identity>, rest: seq<Record>)
    requires Left(rs, pending, left) && Claims(pending, f, taken, claimed) && DistinctRecords(rest)
    requires forall rec :: rec in rest <==> rec in pending && !Solitary(pending, f, taken, rec)
    ensures Left(rs, rest, left - claimed)
  {
  }

  lemma StageUsed(pending: seq<Record>, f: Record -> string, taken: set<string>, claimed: set<Identity>,
                  used: set<string>, nameOf: Identity -> string)
    requires Claims(pending, f, taken, claimed) && InUse(pending, f, taken, {}, used)
    requires forall id :: id in claimed ==> exists rec :: rec in pending && rec.identity == id
    requires forall rec :: rec in pending ==> f(rec) == nameOf(rec.identity)
    ensures used == taken + Image(claimed, nameOf)
  {
    forall n | n in Image(claimed, nameOf)
      ensures n in used
    {
      var id :| id in claimed && nameOf(id) == n;
      var rec :| rec in pending && rec.identity == id;
      assert Solitary(pending, f, taken, rec);
    }
    forall n | n in used && n !in taken
      ensures n in Image(claimed, nameOf)
    {
      var rec :| Solitary(pending, f, taken, rec) && f(rec) == n;
      assert rec.identity in claimed;
    }
  }

  /** Records of the identities ids, one each, named by their identity. */
  ghost predicate RecordsFor(rs: seq<Record>, f: Record -> string, ids: set<Identity>, name: Identity -> string)
  {
    && DistinctRecords(rs)
    && (forall rec :: rec in rs ==> rec.identity in ids && f(rec) == name(rec.identity))
    && forall id :: id in ids ==> exists rec :: rec in rs && rec.identity == id
  }

  /** A record is alone with its name exactly if its identity is. */
  lemma SolitaryIff(rs: seq<Record>, f: Record -> string, taken: set<string>, ids: set<Identity>,
                    name: Identity -> string, rec: Record)
    requires RecordsFor(rs, f, ids, name) && rec in rs
    ensures Solitary(rs, f, taken, rec) <==>
      && name(rec.identity) !in taken
      && forall id :: id in ids && name(id) == name(rec.identity) ==> id == rec.identity
  {
    if Solitary(rs, f, taken, rec) {
      forall id | id in ids && name(id) == name(rec.identity)
        ensures id == rec.identity
      {
        var other :| other in rs && other.identity == id;
      }
    }
    forall other | other in rs && other.identity == rec.identity
      ensures other == rec
    {
      var j :| 0 <= j < |rs| && rs[j] == rec;
      var k :| 0 <= k < |rs| && rs[k] == other;
    }
  }

  lemma PreferredClaims(b: Batch, rs: seq<Record>, f: Record -> string)
    requires RecordsOf(b, rs) && (forall r :: r in rs ==> f(r) == r.initialName)
    ensures Claims(rs, f, b.reserved, b.ids - Pending(b))
  {
    var name := (id: Identity) => Initial(b, id);
    assert RecordsFor(rs, f, b.ids, name) by {
      assert forall rec :: rec in rs ==> RecordOf(b, rec);
    }
    forall rec | rec in rs
      ensures Solitary(rs, f, b.reserved, rec) <==> Preferred(b, rec.identity)
    {
      SolitaryIff(rs, f, b.reserved, b.ids, name, rec);
    }
    assert forall rec :: rec in rs ==> rec.identity in b.ids;
  }

  lemma DigestClaims(b: Batch, rs: seq<Record>, pending: seq<Record>, f: Record -> string)
    requires RecordsOf(b, rs) && Left(rs, pending, Pending(b))
    requires forall r :: r in pending ==> f(r) == Full(b, r.identity)
    ensures Claims(pending, f, UsedByPreferred(b), Pending(b) - Unresolved(b))
  {
    var name := (id: Identity) => Full(b, id);
    assert RecordsFor(pending, f, Pending(b), name) by {
      forall id | id in Pending(b) ensures exists rec :: rec in pending && rec.identity == id {
        var rec :| rec in rs && rec.identity == id;
        assert rec in pending;
      }
    }
    forall rec | rec in pending
      ensures Solitary(pending, f, UsedByPreferred(b), rec) <==> Digested(b, rec.identity)
    {
      SolitaryIff(pending, f, UsedByPreferred(b), Pending(b), name, rec);
    }
  }

  // ------------------------------------------------------------------ stage 3

  ghost function Namer(b: Batch): Identity -> Option<string>
  {
    (id: Identity) => NameOf(b, id)
  }

  /** In a strictly sorted list the position of an element is the number of smaller ones. */
  lemma StrictRank(ids: seq<Identity>, i: nat)
    requires i < |ids| && forall j, k :: 0 <= j < k < |ids| ==> Less(ids[j], ids[k])
    ensures |set id | id in ids && Less(id, ids[i])| == i
  {
    var below := set id | id in ids && Less(id, ids[i]);
    forall id | id in below
      ensures id in ids[..i]
    {
      var k :| 0 <= k < |ids| && ids[k] == id;
      LessTotal(ids[k], ids[i]);
      assert k < i;
      assert ids[..i][k] == id;
    }
    assert below == Elements(ids[..i]);
    forall j, k | 0 <= j < k < i
      ensures ids[..i][j] != ids[..i][k]
    {
      LessTotal(ids[j], ids[k]);
    }
    ElementCount(ids[..i]);
  }

  ghost function Elements(ids: seq<Identity>): set<Identity>
  {
    set id | id in ids
  }

  lemma {:induction false} ElementCount(ids: seq<Identity>)
    requires forall j, k :: 0 <= j < k < |ids| ==> ids[j] != ids[k]
    ensures |Elements(ids)| == |ids|
  {
    if ids != [] {
      var n := |ids| - 1;
      ElementCount(ids[..n]);
      assert ids == ids[..n] + [ids[n]];
      assert Elements(ids) == Elements(ids[..n]) + {ids[n]};
    }
  }

  ghost function IdentityList(rs: seq<Record>): seq<Identity>
  {
    seq(|rs|, i requires 0 <= i < |rs| => rs[i].identity)
  }

  lemma ListsUnresolved(b: Batch, rs: seq<Record>, sorted: seq<Record>)
    requires RecordsOf(b, rs) && Left(rs, sorted, Unresolved(b))
    ensures forall id :: id in IdentityList(sorted) <==> id in Unresolved(b)
  {
    var ids := IdentityList(sorted);
    forall id | id in Unresolved(b)
      ensures id in ids
    {
      var rec :| rec in rs && rec.identity == id;
      assert rec in sorted;
      var k :| 0 <= k < |sorted| && sorted[k] == rec;
      assert ids[k] == id;
    }
    forall id | id in ids
      ensures id in Unresolved(b)
    {
      var k :| 0 <= k < |ids| && ids[k] == id;
      assert sorted[k] in sorted;
    }
  }

  lemma StrictlySorted(sorted: seq<Record>)
    requires DistinctRecords(sorted)
    requires forall j, k :: 0 <= j < k < |sorted| ==> !Less(sorted[k].identity, sorted[j].identity)
    ensures var ids := IdentityList(sorted);
            forall j, k :: 0 <= j < k < |ids| ==> Less(ids[j], ids[k]) && ids[j] != ids[k]
  {
    forall j, k | 0 <= j < k < |sorted|
      ensures Less(sorted[j].identity, sorted[k].identity)
    {
      LessTotal(sorted[j].identity, sorted[k].identity);
    }
  }

  /** Sorted by identity, a record's position is its rank. */
  lemma PositionIsRank(b: Batch, rs: seq<Record>, sorted: seq<Record>, i: nat)
    requires RecordsOf(b, rs) && Left(rs, sorted, Unresolved(b)) && i < |sorted|
    requires forall j, k :: 0 <= j < k < |sorted| ==> !Less(sorted[k].identity, sorted[j].identity)
    ensures Rank(b, sorted[i].identity) == i && Population(b) == |sorted|
  {
    var ids := IdentityList(sorted);
    StrictlySorted(sorted);
    ListsUnresolved(b, rs, sorted);
    StrictRank(ids, i);
    BelowIs(b, ids, ids[i]);
    assert Elements(ids) == Unresolved(b);
    ElementCount(ids);
  }

  lemma BelowIs(b: Batch, ids: seq<Identity>, id: Identity)
    requires forall x :: x in ids <==> x in Unresolved(b)
    ensures Below(b, id) == set x | x in ids && Less(x, id)
  {
  }

  /** The names of the first `n` unresolved records are taken, beyond `Used`. */
  ghost predicate TakenSoFar(b: Batch, sorted: seq<Record>, n: nat, used: set<string>)
    requires n <= |sorted|
  {
    && Used(b) <= used
    && forall name :: name in used && name !in Used(b) ==>
         exists k, probe :: 0 <= k < n && Probed(b, sorted[k].identity, probe) == Some(name)
  }

  /** Skipping taken probes does not change what the probe sequence finds. */
  lemma {:induction false} SkipTaken(f: nat -> Option<string>, used: set<string>, n: nat)
    requires Taken(f, used, n) && n <= |used| + 1
    ensures FirstFree(f, used, 0) == FirstFree(f, used, n)
  {
    if n > 0 {
      SkipTaken(f, used, n - 1);
    }
  }

  /** The bounded probe of one unresolved record: the name of its identity, or None
      for the name-limit error. The source's second error, after the loop, is
      unreachable. */
  method Probe(h: Hashes, rec: Record, rank: nat, population: nat, used: set<string>,
               ghost f: nat -> Option<string>, ghost usedBefore: set<string>)
    returns (name: Option<string>, ghost at: nat)
    requires Injective(f)
    requires forall k: nat :: f(k) == Candidate(h, rec.baseName, rec.seed, Discriminator(rank, k, population))
    requires forall k: nat :: f(k).Some? ==> (f(k).value in used <==> f(k).value in usedBefore)
    ensures name == FirstFree(f, usedBefore, 0) == f(at)
    ensures name.Some? ==> name.value !in used
  {
    var probe: nat := 0;
    while probe < |used| + 1
      invariant probe <= |used| + 1
      invariant Taken(f, usedBefore, probe)
    {
      var candidate := Candidate(h, rec.baseName, rec.seed, Discriminator(rank, probe, population));
      assert candidate == f(probe);
      TakenIsShort(f, usedBefore, probe);
      SkipTaken(f, usedBefore, probe);
      if candidate.None? || candidate.value !in used {
        return candidate, probe;
      }
      probe := probe + 1;
    }
    TakenIsShort(f, used, |used| + 1);
    assert false;
  }

  /** The identities from position `n` on. */
  ghost function LeftFrom(sorted: seq<Record>, n: nat): set<Identity>
  {
    set k | n <= k < |sorted| :: sorted[k].identity
  }

  lemma LeftFromShrinks(sorted: seq<Record>, n: nat)
    requires DistinctRecords(sorted) && n < |sorted|
    ensures sorted[n].identity in LeftFrom(sorted, n)
    ensures LeftFrom(sorted, n + 1) == LeftFrom(sorted, n) - {sorted[n].identity}
  {
  }

  lemma LeftFromStart(b: Batch, rs: seq<Record>, sorted: seq<Record>)
    requires RecordsOf(b, rs) && Left(rs, sorted, Unresolved(b))
    ensures LeftFrom(sorted, 0) == Unresolved(b)
  {
    ListsUnresolved(b, rs, sorted);
    forall id | id in Unresolved(b)
      ensures id in LeftFrom(sorted, 0)
    {
      assert id in IdentityList(sorted);
    }
  }

  /** One unresolved record's turn. */
  method NameUnresolved(ghost b: Batch, h: Hashes, ghost rs: seq<Record>, sorted: seq<Record>, rank: nat,
      population: nat,
                        used: set<string>)
    returns (name: Option<string>)
    requires b.h == h && Valid(b) && RecordsOf(b, rs) && Left(rs, sorted, Unresolved(b))
    requires forall j, k :: 0 <= j < k < |sorted| ==> !Less(sorted[k].identity, sorted[j].identity)
    requires rank < |sorted| && population == |sorted| && TakenSoFar(b, sorted, rank, used)
    ensures name == NameOf(b, sorted[rank].identity)
    ensures name.Some? ==> TakenSoFar(b, sorted, rank + 1, used + {name.value})
  {
    var rec := sorted[rank];
    ProbeSetup(b, rs, sorted, rank, used);
    ghost var at;
    name, at := Probe(h, rec, rank, population, used, Prober(b, rec.identity), Used(b));
    assert Probed(b, sorted[rank].identity, at) == name;
  }

  lemma ProbeSetup(b: Batch, rs: seq<Record>, sorted: seq<Record>, rank: nat, used: set<string>)
    requires Valid(b) && RecordsOf(b, rs) && Left(rs, sorted, Unresolved(b))
    requires forall j, k :: 0 <= j < k < |sorted| ==> !Less(sorted[k].identity, sorted[j].identity)
    requires rank < |sorted| && TakenSoFar(b, sorted, rank, used)
    ensures var rec := sorted[rank];
            var f := Prober(b, rec.identity);
            && Injective(f) && NameOf(b, rec.identity) == FirstFree(f, Used(b), 0)
            && (forall k: nat :: f(k).Some? ==> (f(k).value in used <==> f(k).value in Used(b)))
            && forall k: nat :: f(k) == Candidate(b.h, rec.baseName, rec.seed, Discriminator(rank, k, |sorted|))
  {
    var rec := sorted[rank];
    assert rec in sorted && RecordOf(b, rec);
    PositionIsRank(b, rs, sorted, rank);
    ProberIsInjective(b, rec.identity);
    var f := Prober(b, rec.identity);
    forall k: nat | f(k).Some?
      ensures f(k).value in used <==> f(k).value in Used(b)
    {
      // A candidate taken during the fallback was taken before it.
      var name := Probed(b, sorted[rank].identity, k).value;
      if name in used && name !in Used(b) {
        var j, i :| 0 <= j < rank && Probed(b, sorted[j].identity, i) == Some(name);
        assert sorted[j] in sorted;
        ProbesApart(b, sorted[j].identity, i, sorted[rank].identity, k);
      }
    }
  }

  /** Ranks the unresolved records and probes for each of them. */
  method AllocateFallbacks(ghost b: Batch, h: Hashes, ghost rs: seq<Record>, unresolved: seq<Record>,
                           before: map<Key, string>, taken: set<string>)
    returns (r: Result<map<Key, string>, AllocationError>)
    requires b.h == h && Valid(b) && RecordsOf(b, rs) && Left(rs, unresolved, Unresolved(b))
    requires Allotted(Namer(b), rs, before, Unresolved(b)) && taken == Used(b)
    ensures r.Success? ==> Allotted(Namer(b), rs, r.value, {})
    ensures r.Failure? ==> r.error == NameLimit && exists id :: id in b.ids && NameOf(b, id).None?
  {
    var sorted := SortByIdentity((rec: Record) => rec.identity, unresolved);
    var population := if |sorted| >= 1 then |sorted| else 1;
    var names, used := before, taken;
    SortedStaysDistinct(unresolved, sorted);
    LeftFromStart(b, rs, sorted);
    for rank := 0 to |sorted|
      invariant TakenSoFar(b, sorted, rank, used)
      invariant Allotted(Namer(b), rs, names, LeftFrom(sorted, rank))
    {
      var rec := sorted[rank];
      assert rec in sorted;
      var name := NameUnresolved(b, h, rs, sorted, rank, population, used);
      if name.None? {
        assert RecordOf(b, rec);
        return Failure(NameLimit);
      }
      LeftFromShrinks(sorted, rank);
      AllotFallback(Namer(b), rs, names, LeftFrom(sorted, rank), rec, name.value);
      names := names[rec.key := name.value];
      used := used + {name.value};
    }
    return Success(names);
  }

  lemma SortedStaysDistinct(rs: seq<Record>, sorted: seq<Record>)
    requires DistinctRecords(rs) && Rearranged(rs, sorted)
    ensures DistinctRecords(sorted)
  {
    forall i, j | 0 <= i < j < |sorted|
      ensures sorted[i].identity != sorted[j].identity && sorted[i].key != sorted[j].key
    {
      assert sorted[i] in rs && sorted[j] in rs;
    }
  }

  lemma AllotFallback(nm: Identity -> Option<string>, rs: seq<Record>, names: map<Key, string>, left: set<Identity>,
                      rec: Record, name: string)
    requires DistinctRecords(rs) && Allotted(nm, rs, names, left) && rec in rs && rec.identity in left
    requires nm(rec.identity) == Some(name)
    ensures Allotted(nm, rs, names[rec.key := name], left - {rec.identity})
  {
    forall other | other in rs && (other.key == rec.key || other.identity == rec.identity)
      ensures other == rec
    {
    }
  }

  // ------------------------------------------------------------- the whole batch

  function CountOf(entries: seq<Entry>, server: string, tool: string): nat
  {
    if entries == [] then 0
    else CountOf(entries[..|entries| - 1], server, tool)
         + if entries[|entries| - 1].identity.server == server && entries[|entries| - 1].identity.tool == tool then 1 else 0
  }

  /** Counter((server_name, tool.name) ...) */
  method CountNames(entries: seq<Entry>) returns (counts: map<(string, string), nat>)
    ensures forall e :: e in entries ==> (e.identity.server, e.identity.tool) in counts
    ensures forall s, t :: (s, t) in counts ==> counts[(s, t)] == CountOf(entries, s, t)
  {
    counts := map[];
    for i := 0 to |entries|
      invariant forall e :: e in entries[..i] ==> (e.identity.server, e.identity.tool) in counts
      invariant forall s, t :: (s, t) in counts ==> counts[(s, t)] == CountOf(entries[..i], s, t)
      invariant forall s, t :: (s, t) !in counts ==> CountOf(entries[..i], s, t) == 0
    {
      var name := (entries[i].identity.server, entries[i].identity.tool);
      assert entries[..i + 1][..i] == entries[..i];
      assert entries[..i + 1] == entries[..i] + [entries[i]];
      counts := counts[name := (if name in counts then counts[name] else 0) + 1];
    }
    assert entries[..|entries|] == entries;
  }

  ghost function Peers(ids: set<Identity>, server: string, tool: string): set<Identity>
  {
    set id | id in ids && id.server == server && id.tool == tool
  }

  lemma LastIdentity(entries: seq<Entry>)
    requires entries != [] && DistinctIdentities(entries)
    ensures var init, last := entries[..|entries| - 1], entries[|entries| - 1].identity;
            Identities(entries) == Identities(init) + {last} && last !in Identities(init)
  {
    assert entries == entries[..|entries| - 1] + [entries[|entries| - 1]];
  }

  lemma PeersGrow(ids: set<Identity>, id: Identity, server: string, tool: string)
    requires id !in ids
    ensures |Peers(ids + {id}, server, tool)| ==
      |Peers(ids, server, tool)| + if id.server == server && id.tool == tool then 1 else 0
  {
    var now, before := Peers(ids + {id}, server, tool), Peers(ids, server, tool);
    assert now == if id.server == server && id.tool == tool then before + {id} else before;
  }

  lemma {:induction false} CountIsPeers(entries: seq<Entry>, server: string, tool: string)
    requires DistinctIdentities(entries)
    ensures CountOf(entries, server, tool) == |Peers(Identities(entries), server, tool)|
  {
    if entries == [] {
      assert Identities(entries) == {};
    } else {
      var init, last := entries[..|entries| - 1], entries[|entries| - 1].identity;
      CountIsPeers(init, server, tool);
      LastIdentity(entries);
      PeersGrow(Identities(init), last, server, tool);
    }
  }

  /** More than one entry of a name means that an identity shares it. */
  lemma CountMeansShared(b: Batch, entries: seq<Entry>, id: Identity)
    requires DistinctIdentities(entries) && b.ids == Identities(entries) && id in b.ids
    ensures CountOf(entries, id.server, id.tool) > 1 <==> Shared(b, id)
  {
    CountIsPeers(entries, id.server, id.tool);
    var peers := Peers(b.ids, id.server, id.tool);
    assert id in peers;
    assert |peers - {id}| == |peers| - 1;
    if Shared(b, id) {
      var other :| other in b.ids && other != id && other.server == id.server && other.tool == id.tool;
      assert other in peers - {id};
    } else {
      assert peers - {id} == {};
    }
  }

  /** Two different entries of one identity. */
  ghost predicate Clash(entries: seq<Entry>)
  {
    exists x, y :: x in entries && y in entries && x != y && x.identity == y.identity
  }

  lemma ClashIff(entries: seq<Entry>)
    requires DistinctKeys(entries)
    ensures Clash(entries) <==> !DistinctIdentities(entries)
  {
    if Clash(entries) {
      var x, y :| x in entries && y in entries && x != y && x.identity == y.identity;
      var i :| 0 <= i < |entries| && entries[i] == x;
      var j :| 0 <= j < |entries| && entries[j] == y;
      assert entries[if i < j then i else j].identity == entries[if i < j then j else i].identity;
    }
    if !DistinctIdentities(entries) {
      var i, j :| 0 <= i < j < |entries| && entries[i].identity == entries[j].identity;
      assert entries[i] in entries && entries[j] in entries;
    }
  }

  function MakeRecord(h: Hashes, e: Entry, shared: bool): Record
  {
    var id := e.identity;
    Record(e.key, id, Base(id), SeedOf(id, shared), Shorten(h, Base(id), IdentitySeed(id), false, HASH_LENGTH))
  }

  function RecordFor(h: Hashes, entries: seq<Entry>, e: Entry): Record
  {
    MakeRecord(h, e, CountOf(entries, e.identity.server, e.identity.tool) > 1)
  }

  ghost predicate Recorded(h: Hashes, entries: seq<Entry>, sorted: seq<Entry>, records: seq<Record>)
  {
    |records| == |sorted| && forall k :: 0 <= k < |sorted| ==> records[k] == RecordFor(h, entries, sorted[k])
  }

  /** The first loop: one record per entry, in identity order. */
  method MakeRecords(h: Hashes, ghost entries: seq<Entry>, counts: map<(string, string), nat>, sorted: seq<Entry>)
    returns (r: Result<seq<Record>, AllocationError>)
    requires forall e :: e in sorted ==> (e.identity.server, e.identity.tool) in counts
    requires forall s, t :: (s, t) in counts ==> counts[(s, t)] == CountOf(entries, s, t)
    ensures r.Failure? ==> r.error == DuplicateIdentity && !DistinctIdentities(sorted)
    ensures r.Success? ==> Recorded(h, entries, sorted, r.value) && DistinctIdentities(sorted)
  {
    var records: seq<Record> := [];
    var seen: set<Identity> := {};
    for i := 0 to |sorted|
      invariant Recorded(h, entries, sorted[..i], records)
      invariant Seen(sorted[..i], seen)
    {
      var entry := sorted[i];
      if entry.identity in seen {
        RepeatedIdentity(sorted, i, seen);
        return Failure(DuplicateIdentity);
      }
      assert entry in sorted;
      var record := MakeOne(h, entries, counts, entry);
      SeeOneMore(sorted, i, seen);
      RecordOneMore(h, entries, sorted, i, records, record);
      seen := seen + {entry.identity};
      records := records + [record];
    }
    assert sorted[..|sorted|] == sorted;
    return Success(records);
  }

  lemma SeeOneMore(sorted: seq<Entry>, i: nat, seen: set<Identity>)
    requires i < |sorted| && Seen(sorted[..i], seen) && sorted[i].identity !in seen
    ensures Seen(sorted[..i + 1], seen + {sorted[i].identity})
  {
    assert sorted[..i + 1] == sorted[..i] + [sorted[i]];
    assert sorted[..i + 1][i] == sorted[i];
    forall k | 0 <= k < i
      ensures sorted[..i + 1][k] == sorted[..i][k]
    {
    }
  }

  lemma RecordOneMore(h: Hashes, entries: seq<Entry>, sorted: seq<Entry>, i: nat, records: seq<Record>, record: Record)
    requires i < |sorted| && Recorded(h, entries, sorted[..i], records) && record == RecordFor(h, entries, sorted[i])
    ensures Recorded(h, entries, sorted[..i + 1], records + [record])
  {
    forall k | 0 <= k < i + 1
      ensures (records + [record])[k] == RecordFor(h, entries, sorted[..i + 1][k])
    {
      if k < i {
        assert sorted[..i + 1][k] == sorted[..i][k];
      }
    }
  }

  method MakeOne(h: Hashes, ghost entries: seq<Entry>, counts: map<(string, string), nat>,
      e: Entry) returns (record: Record)
    requires (e.identity.server, e.identity.tool) in counts
    requires counts[(e.identity.server, e.identity.tool)] == CountOf(entries, e.identity.server, e.identity.tool)
    ensures record == RecordFor(h, entries, e)
  {
    record := MakeRecord(h, e, counts[(e.identity.server, e.identity.tool)] > 1);
  }

  ghost predicate Seen(entries: seq<Entry>, seen: set<Identity>)
  {
    && DistinctIdentities(entries)
    && (forall k :: 0 <= k < |entries| ==> entries[k].identity in seen)
    && forall id :: id in seen ==> exists k :: 0 <= k < |entries| && entries[k].identity == id
  }

  lemma RepeatedIdentity(sorted: seq<Entry>, i: nat, seen: set<Identity>)
    requires i < |sorted| && Seen(sorted[..i], seen) && sorted[i].identity in seen
    ensures !DistinctIdentities(sorted)
  {
    var k :| 0 <= k < i && sorted[..i][k].identity == sorted[i].identity;
    assert sorted[k].identity == sorted[i].identity;
  }

  lemma SortedDistinctIff(entries: seq<Entry>, sorted: seq<Entry>)
    requires DistinctKeys(entries) && Rearranged(entries, sorted)
    ensures DistinctIdentities(sorted) <==> DistinctIdentities(entries)
    ensures DistinctKeys(sorted)
    ensures Identities(sorted) == Identities(entries)
  {
    forall i, j | 0 <= i < j < |sorted|
      ensures sorted[i].key != sorted[j].key
    {
      assert sorted[i] in entries && sorted[j] in entries;
    }
    ClashIff(entries);
    ClashIff(sorted);
  }

  lemma RecordForIsRecordOf(b: Batch, entries: seq<Entry>, e: Entry)
    requires DistinctIdentities(entries) && b.ids == Identities(entries) && e in entries
    ensures RecordOf(b, RecordFor(b.h, entries, e))
  {
    CountMeansShared(b, entries, e.identity);
  }

  lemma RecordedAreDistinct(h: Hashes, entries: seq<Entry>, sorted: seq<Entry>, records: seq<Record>)
    requires DistinctKeys(sorted) && DistinctIdentities(sorted) && Recorded(h, entries, sorted, records)
    ensures DistinctRecords(records)
  {
  }

  lemma RecordedFrom(h: Hashes, entries: seq<Entry>, sorted: seq<Entry>, records: seq<Record>)
    requires Rearranged(entries, sorted) && Recorded(h, entries, sorted, records)
    ensures forall rec :: rec in records ==>
      Entry(rec.key, rec.identity) in entries && rec == RecordFor(h, entries, Entry(rec.key, rec.identity))
    ensures forall e :: e in entries ==> RecordFor(h, entries, e) in records
  {
    forall rec | rec in records
      ensures Entry(rec.key, rec.identity) in entries && rec == RecordFor(h, entries, Entry(rec.key, rec.identity))
    {
      var k :| 0 <= k < |records| && records[k] == rec;
      assert sorted[k] in entries;
    }
    forall e | e in entries
      ensures RecordFor(h, entries, e) in records
    {
      var k :| 0 <= k < |sorted| && sorted[k] == e;
      assert records[k] in records;
    }
  }

  /** The records meet the specification of the batch. */
  lemma RecordedMeansRecordsOf(b: Batch, entries: seq<Entry>, sorted: seq<Entry>, records: seq<Record>)
    requires DistinctKeys(entries) && DistinctIdentities(entries) && Rearranged(entries, sorted)
    requires b.ids == Identities(entries) && Recorded(b.h, entries, sorted, records)
    ensures RecordsOf(b, records)
    ensures forall e :: e in entries ==> exists rec :: rec in records && rec.identity == e.identity && rec.key == e.key
    ensures forall rec :: rec in records ==> Entry(rec.key, rec.identity) in entries
  {
    SortedDistinctIff(entries, sorted);
    RecordedAreDistinct(b.h, entries, sorted, records);
    RecordedFrom(b.h, entries, sorted, records);
    forall rec | rec in records
      ensures RecordOf(b, rec)
    {
      RecordForIsRecordOf(b, entries, Entry(rec.key, rec.identity));
    }
    forall e | e in entries
      ensures exists rec :: rec in records && rec.identity == e.identity && rec.key == e.key
    {
      assert RecordFor(b.h, entries, e) in records;
    }
  }

  ghost function BatchOf(h: Hashes, entries: seq<Entry>, reserved: set<string>): Batch
  {
    Batch(h, Identities(entries), reserved)
  }

  /** A complete allocation: each entry's key, and no other, with its identity's name. */
  ghost predicate IsAllocation(h: Hashes, entries: seq<Entry>, reserved: set<string>, names: map<Key, string>)
  {
    && (forall e :: e in entries ==>
          e.key in names && NameOf(BatchOf(h, entries, reserved), e.identity) == Some(names[e.key]))
    && forall key :: key in names ==> exists e :: e in entries && e.key == key
  }

  /** _allocate_mcp_tool_names. */
  method Allocate(h: Hashes, entries: seq<Entry>, reserved: set<string>)
    returns (r: Result<map<Key, string>, AllocationError>)
    requires ValidHashes(h) && DistinctKeys(entries)
    ensures r.Success? ==> IsAllocation(h, entries, reserved, r.value)
    ensures r == Failure(DuplicateIdentity) <==> !DistinctIdentities(entries)
    ensures r == Failure(NameLimit) ==>
      exists id :: id in Identities(entries) && NameOf(BatchOf(h, entries, reserved), id).None?
  {
    ghost var b := BatchOf(h, entries, reserved);
    var counts := CountNames(entries);
    assert NoDuplicates(entries);
    var sorted := SortByIdentity((e: Entry) => e.identity, entries);
    SortedDistinctIff(entries, sorted);
    var made := MakeRecords(h, entries, counts, sorted);
    if made.Failure? {
      return Failure(made.error);
    }
    var records := made.value;
    RecordedMeansRecordsOf(b, entries, sorted, records);

    var initial := (rec: Record) => rec.initialName;
    var names, used, pending := ClaimSolitary(records, initial, map[], reserved);
    AfterPreferred(b, records, initial, names, used, pending);

    var digest := (rec: Record) => Shorten(h, rec.baseName, rec.seed, true, DISAMBIGUATION_HASH_LENGTH);
    ghost var before := names;
    var unresolved;
    names, used, unresolved := ClaimSolitary(pending, digest, names, used);
    AfterDigests(b, records, pending, digest, before, names, used, unresolved);

    r := AllocateFallbacks(b, h, records, unresolved, names, used);
    if r.Success? {
      AllottedIsAllocation(h, entries, reserved, records, r.value);
    }
  }

  lemma AllottedIsAllocation(h: Hashes, entries: seq<Entry>, reserved: set<string>, records: seq<Record>,
      names: map<Key, string>)
    requires Allotted(Namer(BatchOf(h, entries, reserved)), records, names, {})
    requires forall e :: e in entries ==> exists rec :: rec in records && rec.identity == e.identity && rec.key == e.key
    requires forall rec :: rec in records ==> Entry(rec.key, rec.identity) in entries
    ensures IsAllocation(h, entries, reserved, names)
  {
    var nm := Namer(BatchOf(h, entries, reserved));
    forall e | e in entries
      ensures e.key in names && nm(e.identity) == Some(names[e.key])
    {
      var rec :| rec in records && rec.identity == e.identity && rec.key == e.key;
    }
    forall key | key in names
      ensures exists e :: e in entries && e.key == key
    {
      var rec :| rec in records && rec.key == key;
      assert Entry(rec.key, rec.identity) in entries;
    }
  }

  lemma AfterPreferred(b: Batch, rs: seq<Record>, f: Record -> string, names: map<Key, string>, used: set<string>,
                       pending: seq<Record>)
    requires RecordsOf(b, rs) && (forall r :: r in rs ==> f(r) == r.initialName)
    requires Claimed(rs, f, b.reserved, map[], {}, names) && InUse(rs, f, b.reserved, {}, used)
    requires DistinctRecords(pending) && forall rec :: rec in pending <==> rec in rs && !Solitary(rs, f, b.reserved, rec)
    ensures Allotted(Namer(b), rs, names, Pending(b)) && used == UsedByPreferred(b) && Left(rs, pending, Pending(b))
  {
    var claimed := b.ids - Pending(b);
    assert b.ids - claimed == Pending(b);
    PreferredClaims(b, rs, f);
    forall rec | rec in rs
      ensures rec.identity in b.ids && f(rec) == Initial(b, rec.identity)
    {
      assert RecordOf(b, rec);
    }
    StageNames(Namer(b), rs, b.ids, rs, f, b.reserved, claimed, map[], names);
    StageRest(rs, b.ids, rs, f, b.reserved, claimed, pending);
    StageUsed(rs, f, b.reserved, claimed, used, id => Initial(b, id));
  }

  lemma AfterDigests(b: Batch, rs: seq<Record>, pending: seq<Record>, f: Record -> string, before: map<Key, string>,
                     names: map<Key, string>, used: set<string>, rest: seq<Record>)
    requires RecordsOf(b, rs) && Left(rs, pending, Pending(b)) && Allotted(Namer(b), rs, before, Pending(b))
    requires forall r :: r in pending ==> f(r) == Shorten(b.h, r.baseName, r.seed, true, DISAMBIGUATION_HASH_LENGTH)
    requires Claimed(pending, f, UsedByPreferred(b), before, {}, names) && InUse(pending, f, UsedByPreferred(b), {}, used)
    requires DistinctRecords(rest)
    requires forall rec :: rec in rest <==> rec in pending && !Solitary(pending, f, UsedByPreferred(b), rec)
    ensures Allotted(Namer(b), rs, names, Unresolved(b)) && used == Used(b) && Left(rs, rest, Unresolved(b))
  {
    var claimed := Pending(b) - Unresolved(b);
    assert Pending(b) - claimed == Unresolved(b);
    forall rec | rec in pending
      ensures f(rec) == Full(b, rec.identity)
    {
      assert RecordOf(b, rec);
    }
    DigestClaims(b, rs, pending, f);
    forall id | id in claimed
      ensures exists rec :: rec in pending && rec.identity == id
    {
      var rec :| rec in rs && rec.identity == id;
      assert rec in pending;
    }
    StageNames(Namer(b), rs, Pending(b), pending, f, UsedByPreferred(b), claimed, before, names);
    StageRest(rs, Pending(b), pending, f, UsedByPreferred(b), claimed, rest);
    StageUsed(pending, f, UsedByPreferred(b), claimed, used, id => Full(b, id));
  }

  // ------------------------------------------------------------------ theorems

  /** Every entry of a deduplicated batch has exactly one name; names are pairwise
      different, acceptable, and not reserved. */
  lemma AllocationIsSound(h: Hashes, entries: seq<Entry>, reserved: set<string>, names: map<Key, string>)
    requires ValidHashes(h) && DistinctIdentities(entries) && IsAllocation(h, entries, reserved, names)
    ensures forall e :: e in entries ==>
      e.key in names && PublicName(names[e.key]) && names[e.key] !in reserved
    ensures forall i, j :: 0 <= i < j < |entries| ==> names[entries[i].key] != names[entries[j].key]
  {
    forall e | e in entries
      ensures e.key in names && PublicName(names[e.key]) && names[e.key] !in reserved
    {
      OneNameIsSound(h, entries, reserved, names, e);
    }
    forall i, j | 0 <= i < j < |entries|
      ensures names[entries[i].key] != names[entries[j].key]
    {
      TwoNamesDiffer(h, entries, reserved, names, entries[i], entries[j]);
    }
  }

  lemma OneNameIsSound(h: Hashes, entries: seq<Entry>, reserved: set<string>, names: map<Key, string>, e: Entry)
    requires ValidHashes(h) && IsAllocation(h, entries, reserved, names) && e in entries
    ensures e.key in names && PublicName(names[e.key]) && names[e.key] !in reserved
  {
    NameIsPublic(BatchOf(h, entries, reserved), e.identity);
  }

  lemma TwoNamesDiffer(h: Hashes, entries: seq<Entry>, reserved: set<string>, names: map<Key, string>, d: Entry, e: Entry)
    requires ValidHashes(h) && IsAllocation(h, entries, reserved, names)
    requires d in entries && e in entries && d.identity != e.identity
    ensures d.key in names && e.key in names && names[d.key] != names[e.key]
  {
    NamesAreDistinct(BatchOf(h, entries, reserved), d.identity, e.identity);
  }

  /** The name an identity receives depends on nothing but the set of identities: not on
      the order in which servers and tools were discovered, nor on the keys they were
      discovered under. */
  lemma AllocationIgnoresOrder(h: Hashes, xs: seq<Entry>, ys: seq<Entry>, reserved: set<string>,
                               xNames: map<Key, string>, yNames: map<Key, string>, x: Entry, y: Entry)
    requires IsAllocation(h, xs, reserved, xNames) && IsAllocation(h, ys, reserved, yNames)
    requires Identities(xs) == Identities(ys)
    requires x in xs && y in ys && x.identity == y.identity
    ensures xNames[x.key] == yNames[y.key]
  {
    assert NameOf(BatchOf(h, xs, reserved), x.identity) == NameOf(BatchOf(h, ys, reserved), y.identity);
  }

  ghost function IdentitySequence(entries: seq<Entry>): seq<Identity>
  {
    seq(|entries|, i requires 0 <= i < |entries| => entries[i].identity)
  }

  /** Any permutation has the same identities. */
  lemma SameIdentities(xs: seq<Entry>, ys: seq<Entry>)
    requires multiset(IdentitySequence(xs)) == multiset(IdentitySequence(ys))
    ensures Identities(xs) == Identities(ys)
  {
    IdentitiesAsMultiset(xs);
    IdentitiesAsMultiset(ys);
  }

  lemma IdentitiesAsMultiset(entries: seq<Entry>)
    ensures forall id :: id in Identities(entries) <==> id in multiset(IdentitySequence(entries))
  {
    var ids := IdentitySequence(entries);
    forall id | id in Identities(entries)
      ensures id in ids
    {
      var e :| e in entries && e.identity == id;
      var k :| 0 <= k < |entries| && entries[k] == e;
      assert ids[k] == id;
    }
    forall id | id in ids
      ensures id in Identities(entries)
    {
      var k :| 0 <= k < |ids| && ids[k] == id;
      assert entries[k] in entries;
    }
  }
}
