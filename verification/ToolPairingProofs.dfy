/** What the pairing passes achieve. */
module ToolPairingProofs {
  import opened Prelude
  import opened ToolPairing

  // -------------------------------------------------- what each pass leaves alone

  predicate SameCalls(a: seq<Part>, b: seq<Part>)
  {
    |a| == |b| && forall k :: 0 <= k < |a| ==>
      IsCall(a[k]) == IsCall(b[k]) && (IsCall(a[k]) ==> a[k].call == b[k].call)
  }

  lemma {:induction false} SameCallsSameIds(a: seq<Part>, b: seq<Part>, name: string)
    requires SameCalls(a, b)
    ensures CallIds(a, name) == CallIds(b, name) && AllCallIds(a) == AllCallIds(b) && Missing(a) == Missing(b)
    decreases |a|
  {
    if a != [] {
      SameCallsSameIds(a[..|a| - 1], b[..|b| - 1], name);
    }
  }

  /** Passes 2 and 3 leave the calls alone. */
  lemma PassesKeepCalls(all: seq<Part>)
    ensures SameCalls(all, PairedBy(all)) && SameCalls(all, Pass3(all))
  {
  }

  lemma {:induction false} SameIdless(a: seq<Part>, b: seq<Part>, name: string)
    requires |a| == |b| && forall k :: 0 <= k < |a| ==> IsIdless(a[k], name) == IsIdless(b[k], name)
    ensures Idless(a, name) == Idless(b, name)
    decreases |a|
  {
    if a != [] {
      SameIdless(a[..|a| - 1], b[..|b| - 1], name);
    }
  }

  /** The id of an unrepaired orphan is no call's; the id a repair gives is one. */
  lemma {:induction false} CallIdsAreCallIds(parts: seq<Part>, name: string)
    ensures forall x :: x in CallIds(parts, name) ==> x in AllCallIds(parts) && x != ""
    decreases |parts|
  {
    if parts != [] {
      CallIdsAreCallIds(parts[..|parts| - 1], name);
    }
  }

  lemma {:induction false} UnclaimedIsNew(ids: seq<string>, claimed: seq<string>)
    ensures forall x :: x in Unclaimed(ids, claimed) <==> x in ids && x !in claimed
  {
    if ids != [] {
      UnclaimedIsNew(ids[1..], claimed);
    }
  }

  // ----------------------------------------------------------- calls end with ids

  predicate SameResponses(a: seq<Part>, b: seq<Part>)
  {
    |a| == |b| && forall k :: 0 <= k < |a| ==>
      IsResponse(a[k]) == IsResponse(b[k]) && (IsResponse(a[k]) ==> a[k].response == b[k].response)
  }

  predicate CallsHaveIds(parts: seq<Part>)
  {
    forall k :: 0 <= k < |parts| && IsCall(parts[k]) ==> Truthy(parts[k].call.value.id)
  }

  /** Pass 1 leaves the responses alone and gives every call an id. */
  lemma Pass1Facts(newId: nat -> string, parts: seq<Part>)
    requires forall i :: newId(i) != ""
    ensures SameResponses(parts, Pass1(newId, parts)) && SameParts(parts, Pass1(newId, parts))
    ensures CallsHaveIds(Pass1(newId, parts))
  {
    forall k | 0 <= k < |parts|
      ensures var p := Pass1(newId, parts)[k];
              && SamePart(parts[k], p) && (IsCall(p) ==> Truthy(p.call.value.id))
              && IsResponse(p) == IsResponse(parts[k]) && (IsResponse(p) ==> p.response == parts[k].response)
    {
      assert Pass1(newId, parts)[k] == Assigned(parts[k], newId(Missing(parts[..k])));
    }
  }

  /** Every call ends with an id; an id it came with stays. */
  lemma EveryCallHasAnId(newId: nat -> string, parts: seq<Part>, k: nat)
    requires (forall i :: newId(i) != "") && k < |parts| && IsCall(parts[k])
    ensures var out := Pipeline(newId, parts);
            && IsCall(out[k]) && Truthy(out[k].call.value.id)
            && (Truthy(parts[k].call.value.id) ==> out[k].call == parts[k].call)
  {
    var withIds := Pass1(newId, parts);
    Pass1Facts(newId, parts);
    assert withIds[k] == Assigned(parts[k], newId(Missing(parts[..k])));
    CallsAreKept(newId, parts);
    assert IsCall(withIds[k]) == IsCall(Pipeline(newId, parts)[k]);
  }

  lemma CallsAreKept(newId: nat -> string, parts: seq<Part>)
    ensures SameCalls(Pass1(newId, parts), PairedBy(Pass1(newId, parts)))
    ensures SameCalls(PairedBy(Pass1(newId, parts)), Pipeline(newId, parts))
    ensures SameCalls(Pass1(newId, parts), Pipeline(newId, parts))
  {
    PassesKeepCalls(Pass1(newId, parts));
    PassesKeepCalls(PairedBy(Pass1(newId, parts)));
  }

  // ------------------------------------------------------------ first in, first out

  function Calls(parts: seq<Part>, name: string): nat
  {
    if parts == [] then 0
    else
      var p := parts[|parts| - 1];
      Calls(parts[..|parts| - 1], name) + (if IsCall(p) && NameOf(p.call.value) == name then 1 else 0)
  }

  lemma CallsAreCounted(newId: nat -> string, parts: seq<Part>, name: string)
    requires forall i :: newId(i) != ""
    ensures |CallIds(Pass1(newId, parts), name)| == Calls(parts, name)
  {
    Pass1Facts(newId, parts);
    CountCallIds(Pass1(newId, parts), name);
    SameCallNames(parts, Pass1(newId, parts), name);
  }

  /** The call at c is the Calls(parts[..c], name)-th with its name. */
  lemma {:induction false} NthCall(parts: seq<Part>, c: nat, name: string)
    requires c < |parts| && CallsHaveIds(parts)
    requires IsCall(parts[c]) && NameOf(parts[c].call.value) == name
    ensures Calls(parts[..c], name) < |CallIds(parts, name)| == Calls(parts, name)
    ensures Some(CallIds(parts, name)[Calls(parts[..c], name)]) == parts[c].call.value.id
    decreases |parts|
  {
    var n := |parts| - 1;
    CountCallIds(parts, name);
    CountCallIds(parts[..n], name);
    if c < n {
      NthCall(parts[..n], c, name);
      assert parts[..n][..c] == parts[..c];
    }
  }

  lemma {:induction false} CountCallIds(parts: seq<Part>, name: string)
    requires CallsHaveIds(parts)
    ensures |CallIds(parts, name)| == Calls(parts, name)
    decreases |parts|
  {
    if parts != [] {
      CountCallIds(parts[..|parts| - 1], name);
    }
  }

  lemma {:induction false} SameCallNames(a: seq<Part>, b: seq<Part>, name: string)
    requires |a| == |b| && forall k :: 0 <= k < |a| ==> SamePart(a[k], b[k])
    ensures Calls(a, name) == Calls(b, name)
    decreases |a|
  {
    if a != [] {
      SameCallNames(a[..|a| - 1], b[..|b| - 1], name);
    }
  }

  predicate NoResponseIds(parts: seq<Part>)
  {
    forall k :: 0 <= k < |parts| && IsResponse(parts[k]) ==> !Truthy(parts[k].response.value.id)
  }

  lemma PairedIdsAreCallIds(all: seq<Part>)
    requires NoResponseIds(all)
    ensures forall k :: 0 <= k < |all| ==> !IsOrphan(PairedBy(all), PairedBy(all)[k])
  {
    PassesKeepCalls(all);
    SameCallsSameIds(all, PairedBy(all), "");
    forall k | 0 <= k < |all| ensures !IsOrphan(PairedBy(all), PairedBy(all)[k]) {
      if IsResponse(all[k]) {
        CallIdsAreCallIds(all, NameOf(all[k].response.value));
      }
    }
  }

  /** If no response carries an id, pass 3 has nothing to do. */
  lemma Pass3IsIdentity(newId: nat -> string, parts: seq<Part>)
    requires (forall i :: newId(i) != "") && NoResponseIds(parts)
    ensures Pipeline(newId, parts) == PairedBy(Pass1(newId, parts))
  {
    var withIds := Pass1(newId, parts);
    Pass1Facts(newId, parts);
    assert NoResponseIds(withIds);
    PairedIdsAreCallIds(withIds);
    assert Pass3(PairedBy(withIds)) == PairedBy(withIds);
  }

  lemma IdlessSoFar(a: seq<Part>, b: seq<Part>, k: nat, name: string)
    requires SameResponses(a, b) && k <= |a|
    ensures Idless(a[..k], name) == Idless(b[..k], name)
  {
    SameIdless(a[..k], b[..k], name);
  }

  /** The k-th response with a name gets the id of the k-th call with that name, wherever
      the two stand. */
  lemma PairedInOrder(newId: nat -> string, parts: seq<Part>, c: nat, k: nat)
    requires (forall i :: newId(i) != "") && NoResponseIds(parts)
    requires k < |parts| && IsResponse(parts[k]) && c < |parts| && IsCall(parts[c])
    requires NameOf(parts[c].call.value) == NameOf(parts[k].response.value)
    requires Calls(parts[..c], NameOf(parts[c].call.value)) == Idless(parts[..k], NameOf(parts[c].call.value))
    ensures var out := Pipeline(newId, parts);
            && IsCall(out[c]) && IsResponse(out[k])
            && Truthy(out[k].response.value.id) && out[k].response.value.id == out[c].call.value.id
  {
    var withIds, name := Pass1(newId, parts), NameOf(parts[k].response.value);
    Pass3IsIdentity(newId, parts);
    Pass1Facts(newId, parts);
    assert SamePart(parts[c], withIds[c]) && IsResponse(withIds[k]);
    IdlessSoFar(parts, withIds, k, name);
    NthCall(withIds, c, name);
    SameCallNames(parts[..c], withIds[..c], name);
    CallsAreKept(newId, parts);
    assert PairedBy(withIds)[k] == Paired(withIds, k);
    assert IsCall(PairedBy(withIds)[c]) && PairedBy(withIds)[c].call == withIds[c].call;
  }

  /** Once the calls of its name are used up a response stays without an id. */
  lemma LateResponsesStayIdless(newId: nat -> string, parts: seq<Part>, k: nat)
    requires (forall i :: newId(i) != "") && NoResponseIds(parts) && k < |parts| && IsResponse(parts[k])
    requires Calls(parts, NameOf(parts[k].response.value)) <= Idless(parts[..k], NameOf(parts[k].response.value))
    ensures IsResponse(Pipeline(newId, parts)[k]) && Pipeline(newId, parts)[k].response == parts[k].response
  {
    var withIds, name := Pass1(newId, parts), NameOf(parts[k].response.value);
    Pass3IsIdentity(newId, parts);
    Pass1Facts(newId, parts);
    CallsAreCounted(newId, parts, name);
    IdlessSoFar(parts, withIds, k, name);
    assert IsResponse(withIds[k]) && withIds[k].response == parts[k].response;
    assert PairedBy(withIds)[k] == Paired(withIds, k);
  }

  // ------------------------------------------------------------------ orphan repair

  /** A repair takes the id of a call with the response's name that no earlier repair took
      and no response with this name in a part of its own claims. */
  lemma RepairTakesUnclaimed(all: seq<Part>, k: nat)
    requires k < |all| && Repaired(all, k) != all[k]
    ensures IsOrphan(all, all[k]) && IsResponse(Repaired(all, k))
    ensures var id, name := Repaired(all, k).response.value.id, NameOf(all[k].response.value);
            id.Some? && id.value in CallIds(all, name) && id.value !in ResponseIds(all, name)
            && id.value !in Claimed(all, k, name) && id.value in Claimed(all, k + 1, name)
  {
    var name := NameOf(all[k].response.value);
    UnclaimedIsNew(CallIds(all, name), Claimed(all, k, name));
    ClaimsGrow(all, 0, k, name);
  }

  lemma {:induction false} ClaimsGrow(all: seq<Part>, j: nat, k: nat, name: string)
    requires j <= k <= |all|
    ensures Claimed(all, j, name) <= Claimed(all, k, name)
    decreases k - j
  {
    if j < k {
      ClaimsGrow(all, j, k - 1, name);
    }
  }

  /** Two repaired responses with one name never share an id; with distinct call ids no
      two repaired responses do. */
  lemma RepairsDiffer(all: seq<Part>, j: nat, k: nat)
    requires j < k < |all| && Repaired(all, j) != all[j] && Repaired(all, k) != all[k]
    requires NameOf(all[j].response.value) == NameOf(all[k].response.value) || DistinctCalls(all)
    ensures Repaired(all, j).response.value.id != Repaired(all, k).response.value.id
  {
    var n, m := NameOf(all[j].response.value), NameOf(all[k].response.value);
    if n == m {
      NamesakesDiffer(all, j, k);
    } else {
      RepairTakesUnclaimed(all, j);
      RepairTakesUnclaimed(all, k);
      OneName(all, n, m, Repaired(all, j).response.value.id.value);
    }
  }

  lemma NamesakesDiffer(all: seq<Part>, j: nat, k: nat)
    requires j < k < |all| && Repaired(all, j) != all[j] && Repaired(all, k) != all[k]
    requires NameOf(all[j].response.value) == NameOf(all[k].response.value)
    ensures IsResponse(Repaired(all, j)) && IsResponse(Repaired(all, k))
    ensures Repaired(all, j).response.value.id != Repaired(all, k).response.value.id
  {
    RepairTakesUnclaimed(all, j);
    RepairTakesUnclaimed(all, k);
    ClaimedOnce(all, j, k, NameOf(all[j].response.value),
                Repaired(all, j).response.value.id.value, Repaired(all, k).response.value.id.value);
  }

  lemma ClaimedOnce(all: seq<Part>, j: nat, k: nat, name: string, x: string, y: string)
    requires j < k <= |all| && x in Claimed(all, j + 1, name) && y !in Claimed(all, k, name)
    ensures x != y
  {
    ClaimsGrow(all, j + 1, k, name);
    InPrefix(Claimed(all, j + 1, name), Claimed(all, k, name), x);
  }

  lemma InPrefix(a: seq<string>, b: seq<string>, x: string)
    requires a <= b && x in a
    ensures x in b
  {
    assert b == a + b[|a|..];
  }

  lemma OneName(all: seq<Part>, n: string, m: string, id: string)
    requires DistinctCalls(all) && n != m && id in CallIds(all, n)
    ensures id !in CallIds(all, m)
  {
    if id in CallIds(all, m) {
      var c := CallAt(all, n, id);
      var d := CallAt(all, m, id);
      assert false;
    }
  }

  predicate DistinctCalls(all: seq<Part>)
  {
    forall c, d :: 0 <= c < d < |all| && IsCall(all[c]) && IsCall(all[d]) && Truthy(all[c].call.value.id) ==>
      all[c].call.value.id != all[d].call.value.id
  }

  lemma {:induction false} CallAt(all: seq<Part>, name: string, id: string) returns (c: nat)
    requires id in CallIds(all, name)
    ensures c < |all| && IsCall(all[c]) && NameOf(all[c].call.value) == name && all[c].call.value.id == Some(id) && id != ""
    decreases |all|
  {
    var n := |all| - 1;
    if id in CallIds(all[..n], name) {
      c := CallAt(all[..n], name, id);
    } else {
      c := n;
    }
  }

  lemma {:induction false} UnclaimedShrinks(ids: seq<string>, claimed: seq<string>)
    ensures |Unclaimed(ids, claimed)| <= |ids|
  {
    if ids != [] {
      UnclaimedShrinks(ids[1..], claimed);
    }
  }

  /** A list of ids with each one kept where it first occurs. */
  function Firsts(ids: seq<string>): seq<string>
    decreases |ids|
  {
    if ids == [] then []
    else
      UnclaimedShrinks(ids[1..], [ids[0]]);
      [ids[0]] + Firsts(Unclaimed(ids[1..], [ids[0]]))
  }

  lemma UnclaimedCons(x: string, ids: seq<string>, claimed: seq<string>)
    ensures Unclaimed([x] + ids, claimed) == (if x in claimed then [] else [x]) + Unclaimed(ids, claimed)
  {
    assert ([x] + ids)[1..] == ids;
  }

  lemma FirstsTail(ids: seq<string>)
    requires ids != []
    ensures Firsts(ids)[1..] == Firsts(Unclaimed(ids, [ids[0]]))
  {
    var rest := Unclaimed(ids[1..], [ids[0]]);
    assert ids[0] in [ids[0]];
    assert Unclaimed(ids, [ids[0]]) == [] + rest == rest;
    assert Firsts(ids) == [ids[0]] + Firsts(rest);
  }

  lemma {:induction false} ClaimOneMore(ids: seq<string>, claimed: seq<string>, id: string)
    ensures Unclaimed(ids, claimed + [id]) == Unclaimed(Unclaimed(ids, claimed), [id])
  {
    if ids != [] {
      ClaimOneMore(ids[1..], claimed, id);
      var left := Unclaimed(ids[1..], claimed);
      assert ids[0] in claimed + [id] <==> ids[0] in claimed || ids[0] == id;
      if ids[0] in claimed {
        assert Unclaimed(ids, claimed) == [] + left == left;
      } else {
        assert Unclaimed(ids, claimed) == [ids[0]] + left;
        UnclaimedCons(ids[0], left, [id]);
      }
    }
  }

  /** Orphans with this name among the first k parts. */
  function Orphans(all: seq<Part>, k: nat, name: string): nat
    requires k <= |all|
  {
    if k == 0 then 0
    else Orphans(all, k - 1, name)
         + (if IsOrphan(all, all[k - 1]) && NameOf(all[k - 1].response.value) == name then 1 else 0)
  }

  lemma TakeOne(ids: seq<string>, claimed: seq<string>)
    requires Unclaimed(ids, claimed) != []
    ensures Firsts(Unclaimed(ids, claimed + [Unclaimed(ids, claimed)[0]])) == Firsts(Unclaimed(ids, claimed))[1..]
  {
    var left := Unclaimed(ids, claimed);
    ClaimOneMore(ids, claimed, left[0]);
    FirstsTail(left);
  }

  /** What is left of ids, without repetitions. */
  function Free(ids: seq<string>, claimed: seq<string>): seq<string>
  {
    Firsts(Unclaimed(ids, claimed))
  }

  function NextClaims(ids: seq<string>, claimed: seq<string>, hit: bool): seq<string>
  {
    if hit && Unclaimed(ids, claimed) != [] then claimed + [Unclaimed(ids, claimed)[0]] else claimed
  }

  lemma NextFree(ids: seq<string>, claimed: seq<string>, hit: bool)
    ensures Free(ids, NextClaims(ids, claimed, hit)) ==
      if hit && Free(ids, claimed) != [] then Free(ids, claimed)[1..] else Free(ids, claimed)
  {
    if Unclaimed(ids, claimed) != [] {
      TakeOne(ids, claimed);
    }
  }

  /** Starting from the claims `from`, n heads have been taken. */
  predicate Drained(ids: seq<string>, from: seq<string>, claimed: seq<string>, n: nat)
  {
    Free(ids, claimed) == Rest(Free(ids, from), n)
  }

  lemma DrainStep(ids: seq<string>, from: seq<string>, claimed: seq<string>, n: nat, hit: bool)
    requires Drained(ids, from, claimed, n)
    ensures Drained(ids, from, NextClaims(ids, claimed, hit), n + if hit then 1 else 0)
  {
    NextFree(ids, claimed, hit);
  }

  predicate OrphanNamed(all: seq<Part>, k: nat, name: string)
    requires k < |all|
  {
    IsOrphan(all, all[k]) && NameOf(all[k].response.value) == name
  }

  lemma OrphanStep(all: seq<Part>, k: nat, name: string)
    requires k < |all|
    ensures Orphans(all, k + 1, name) == Orphans(all, k, name) + (if OrphanNamed(all, k, name) then 1 else 0)
    ensures Claimed(all, k + 1, name) == NextClaims(CallIds(all, name), Claimed(all, k, name), OrphanNamed(all, k, name))
  {
  }

  /** The orphans of a name use its free call ids up in order. */
  lemma {:induction false} OrphansTakeInOrder(all: seq<Part>, k: nat, name: string)
    requires k <= |all|
    ensures Drained(CallIds(all, name), ResponseIds(all, name), Claimed(all, k, name), Orphans(all, k, name))
    decreases k
  {
    if k > 0 {
      OrphansTakeInOrder(all, k - 1, name);
      OrphanStep(all, k - 1, name);
      DrainStep(CallIds(all, name), ResponseIds(all, name), Claimed(all, k - 1, name), Orphans(all, k - 1, name),
                OrphanNamed(all, k - 1, name));
    }
  }

  /** So an orphan is repaired exactly if its name has more unclaimed call ids than orphans
      before it: all are, when they do not outnumber the unclaimed calls. */
  lemma RepairedIff(all: seq<Part>, k: nat)
    requires k < |all| && IsOrphan(all, all[k])
    ensures var name := NameOf(all[k].response.value);
            var unclaimed := Free(CallIds(all, name), ResponseIds(all, name));
            && (Repaired(all, k) != all[k] <==> Orphans(all, k, name) < |unclaimed|)
            && (Orphans(all, k, name) < |unclaimed| ==>
                  Repaired(all, k) == WithResponseId(all[k], unclaimed[Orphans(all, k, name)]))
  {
    var name := NameOf(all[k].response.value);
    OrphansTakeInOrder(all, k, name);
    UnclaimedIsNew(CallIds(all, name), Claimed(all, k, name));
    CallIdsAreCallIds(all, name);
    var left := Unclaimed(CallIds(all, name), Claimed(all, k, name));
    if left != [] {
      assert Firsts(left)[0] == left[0];
      assert left[0] in AllCallIds(all);
    }
  }

  /** A response that already names a call is never changed, by any pass. */
  lemma MatchedResponsesAreKept(newId: nat -> string, parts: seq<Part>, k: nat)
    requires (forall i :: newId(i) != "") && k < |parts| && IsResponse(parts[k])
    requires Truthy(parts[k].response.value.id) && parts[k].response.value.id.value in AllCallIds(parts)
    ensures IsResponse(Pipeline(newId, parts)[k]) && Pipeline(newId, parts)[k].response == parts[k].response
  {
    var withIds := Pass1(newId, parts);
    Pass1KeepsIds(newId, parts);
    Pass1Facts(newId, parts);
    CallsAreKept(newId, parts);
    SameCallsSameIds(withIds, PairedBy(withIds), "");
    assert IsResponse(withIds[k]) && withIds[k].response == parts[k].response;
    assert PairedBy(withIds)[k] == Paired(withIds, k) == withIds[k];
    assert Pipeline(newId, parts)[k] == Repaired(PairedBy(withIds), k);
  }

  lemma {:induction false} Pass1KeepsIds(newId: nat -> string, parts: seq<Part>)
    ensures AllCallIds(parts) <= AllCallIds(Pass1(newId, parts))
    decreases |parts|
  {
    if parts != [] {
      var n := |parts| - 1;
      assert parts == parts[..n] + [parts[n]];
      Pass1One(newId, parts[..n], parts[n]);
      Pass1KeepsIds(newId, parts[..n]);
      CollectOne(Pass1(newId, parts[..n]), Assigned(parts[n], newId(Missing(parts[..n]))), "");
    }
  }

  // -------------------------------------------------------------------- running twice

  /** An orphan inside a part that also holds a call, for which there is a free call: its repair
      is not counted as a claim the next time. */
  predicate Hidden(all: seq<Part>, k: nat, name: string)
    requires k < |all|
  {
    && IsCall(all[k]) && IsOrphan(all, all[k]) && NameOf(all[k].response.value) == name
    && Orphans(all, k, name) < |Free(CallIds(all, name), ResponseIds(all, name))|
  }

  /** No such repair has a name whose orphans outnumber the free calls. */
  predicate RepairsAreSeen(all: seq<Part>)
  {
    forall k :: 0 <= k < |all| && IsOrphan(all, all[k]) && Hidden(all, k, NameOf(all[k].response.value)) ==>
      var name := NameOf(all[k].response.value);
      Orphans(all, |all|, name) <= |Free(CallIds(all, name), ResponseIds(all, name))|
  }

  lemma {:induction false} InResponseIds(parts: seq<Part>, i: nat, name: string)
    requires i < |parts| && !IsCall(parts[i]) && IsResponse(parts[i]) && Truthy(parts[i].response.value.id)
    requires NameOf(parts[i].response.value) == name
    ensures parts[i].response.value.id.value in ResponseIds(parts, name)
    decreases |parts|
  {
    if i < |parts| - 1 {
      InResponseIds(parts[..|parts| - 1], i, name);
    }
  }

  lemma {:induction false} ResponseAt(parts: seq<Part>, name: string, id: string) returns (i: nat)
    requires id in ResponseIds(parts, name)
    ensures i < |parts| && !IsCall(parts[i]) && IsResponse(parts[i]) && NameOf(parts[i].response.value) == name
    ensures parts[i].response.value.id == Some(id) && id != ""
    decreases |parts|
  {
    var n := |parts| - 1;
    if id in ResponseIds(parts[..n], name) {
      i := ResponseAt(parts[..n], name, id);
    } else {
      i := n;
    }
  }

  lemma ChangedIsRepaired(all: seq<Part>, k: nat)
    requires k < |all| && IsOrphan(all, all[k])
    requires Unclaimed(CallIds(all, NameOf(all[k].response.value)), Claimed(all, k, NameOf(all[k].response.value))) != []
    ensures Repaired(all, k) != all[k]
  {
    RepairedIff(all, k);
    OrphansTakeInOrder(all, k, NameOf(all[k].response.value));
  }

  /** What was claimed of the calls is carried by responses afterwards. */
  lemma {:induction false} ClaimsAreCarried(all: seq<Part>, k: nat, name: string, id: string)
    requires k <= |all| && id in Claimed(all, k, name) && id in AllCallIds(all)
    requires forall j :: 0 <= j < |all| ==> !Hidden(all, j, name)
    ensures id in ResponseIds(Pass3(all), name)
    decreases k
  {
    var out := Pass3(all);
    if k == 0 {
      var i := ResponseAt(all, name, id);
      assert out[i] == all[i];
      InResponseIds(out, i, name);
    } else if id in Claimed(all, k - 1, name) {
      ClaimsAreCarried(all, k - 1, name, id);
    } else {
      CallIdsAreCallIds(all, name);
      UnclaimedIsNew(CallIds(all, name), Claimed(all, k - 1, name));
      assert out[k - 1] == WithResponseId(all[k - 1], id);
      assert id !in Claimed(all, k - 1, name) && !Hidden(all, k - 1, name);
      ChangedIsRepaired(all, k - 1);
      RepairedIff(all, k - 1);
      InResponseIds(out, k - 1, name);
    }
  }

  /** An orphan that is left has no unclaimed call left either. */
  lemma NothingLeft(all: seq<Part>, k: nat)
    requires k < |all| && IsOrphan(Pass3(all), Pass3(all)[k])
    requires forall j :: 0 <= j < |all| ==> !Hidden(all, j, NameOf(all[k].response.value))
    ensures var name := NameOf(all[k].response.value);
            IsOrphan(all, all[k]) && Unclaimed(CallIds(Pass3(all), name), ResponseIds(Pass3(all), name)) == []
  {
    var out, name := Pass3(all), NameOf(all[k].response.value);
    PassesKeepCalls(all);
    SameCallsSameIds(all, out, name);
    CallIdsAreCallIds(all, name);
    var claimed := Claimed(all, k, name);
    UnclaimedIsNew(CallIds(all, name), claimed);
    assert Unclaimed(CallIds(all, name), claimed) == [];
    UnclaimedIsNew(CallIds(out, name), ResponseIds(out, name));
    forall x | x in CallIds(out, name) ensures x in ResponseIds(out, name) {
      assert x in claimed by {
        assert x !in Unclaimed(CallIds(all, name), claimed);
      }
      ClaimsAreCarried(all, k, name, x);
    }
    NoneUnclaimed(CallIds(out, name), ResponseIds(out, name));
  }

  lemma {:induction false} NoneUnclaimed(ids: seq<string>, claimed: seq<string>)
    requires forall x :: x in ids ==> x in claimed
    ensures Unclaimed(ids, claimed) == []
  {
    if ids != [] {
      NoneUnclaimed(ids[1..], claimed);
    }
  }

  lemma {:induction false} OrphansGrow(all: seq<Part>, j: nat, k: nat, name: string)
    requires j <= k <= |all|
    ensures Orphans(all, j, name) <= Orphans(all, k, name)
    decreases k - j
  {
    if j < k {
      OrphansGrow(all, j, k - 1, name);
    }
  }

  lemma {:induction false} NthOrphan(all: seq<Part>, k: nat, name: string, m: nat) returns (i: nat)
    requires k <= |all| && m < Orphans(all, k, name)
    ensures i < k && OrphanNamed(all, i, name) && Orphans(all, i, name) == m
    decreases k
  {
    if m < Orphans(all, k - 1, name) {
      i := NthOrphan(all, k - 1, name, m);
    } else {
      i := k - 1;
    }
  }

  /** An orphan that is left had no free call, so its name has too many orphans. */
  lemma LeftOver(all: seq<Part>, k: nat)
    requires k < |all| && IsOrphan(Pass3(all), Pass3(all)[k])
    ensures IsOrphan(all, all[k]) && Pass3(all)[k] == all[k]
    ensures var name := NameOf(all[k].response.value);
            Orphans(all, |all|, name) > |Free(CallIds(all, name), ResponseIds(all, name))|
  {
    PassesKeepCalls(all);
    SameCallsSameIds(all, Pass3(all), "");
    assert Pass3(all)[k] == Repaired(all, k);
    if Repaired(all, k) != all[k] {
      RepairTakesUnclaimed(all, k);
      CallIdsAreCallIds(all, NameOf(all[k].response.value));
    }
    assert Repaired(all, k) == all[k];
    RepairedIff(all, k);
    OrphansGrow(all, k + 1, |all|, NameOf(all[k].response.value));
  }

  lemma SeenIsIdempotent(all: seq<Part>, k: nat)
    requires RepairsAreSeen(all) && k < |all|
    ensures Repaired(Pass3(all), k) == Pass3(all)[k]
  {
    var out := Pass3(all);
    if IsOrphan(out, out[k]) {
      LeftOver(all, k);
      var name := NameOf(all[k].response.value);
      NothingLeft(all, k);
      ClaimsGrow(out, 0, k, name);
      UnclaimedIsNew(CallIds(out, name), ResponseIds(out, name));
      forall x | x in CallIds(out, name) ensures x in Claimed(out, k, name) {
        assert x !in Unclaimed(CallIds(out, name), ResponseIds(out, name));
        InPrefix(ResponseIds(out, name), Claimed(out, k, name), x);
      }
      NoneUnclaimed(CallIds(out, name), Claimed(out, k, name));
    }
  }

  lemma NotCarriedElsewhere(all: seq<Part>, k: nat, i: nat)
    requires k < |all| && IsCall(all[k]) && Repaired(all, k) != all[k] && IsOrphan(all, all[k])
    requires i < |all| && !IsCall(all[i]) && IsResponse(all[i]) && Truthy(Repaired(all, i).response.value.id)
    requires NameOf(all[i].response.value) == NameOf(all[k].response.value)
    ensures Repaired(all, i).response.value.id != Repaired(all, k).response.value.id
  {
    RepairTakesUnclaimed(all, k);
    if Repaired(all, i) == all[i] {
      InResponseIds(all, i, NameOf(all[k].response.value));
    } else if i < k {
      NamesakesDiffer(all, i, k);
    } else {
      NamesakesDiffer(all, k, i);
    }
  }

  /** The id given out in a part that is also a call looks unclaimed afterwards. */
  lemma HiddenIdLooksFree(all: seq<Part>, k: nat)
    requires k < |all| && IsCall(all[k]) && Repaired(all, k) != all[k]
    ensures IsOrphan(all, all[k])
    ensures var name := NameOf(all[k].response.value);
            Free(CallIds(Pass3(all), name), ResponseIds(Pass3(all), name)) != []
  {
    var out := Pass3(all);
    RepairTakesUnclaimed(all, k);
    var name, x := NameOf(all[k].response.value), Repaired(all, k).response.value.id.value;
    PassesKeepCalls(all);
    SameCallsSameIds(all, out, name);
    if x in ResponseIds(out, name) {
      var i := ResponseAt(out, name, x);
      assert out[i] == Repaired(all, i);
      NotCarriedElsewhere(all, k, i);
      assert false;
    }
    UnclaimedIsNew(CallIds(out, name), ResponseIds(out, name));
    assert x in Unclaimed(CallIds(out, name), ResponseIds(out, name));
  }

  /** If a name has more orphans than free calls, one of them is left. */
  lemma OrphanIsLeft(all: seq<Part>, name: string) returns (left: nat)
    requires Orphans(all, |all|, name) > |Free(CallIds(all, name), ResponseIds(all, name))|
    ensures left < |all| && OrphanNamed(Pass3(all), left, name)
  {
    left := NthOrphan(all, |all|, name, |Free(CallIds(all, name), ResponseIds(all, name))|);
    RepairedIff(all, left);
    PassesKeepCalls(all);
    SameCallsSameIds(all, Pass3(all), "");
    assert Pass3(all)[left] == Repaired(all, left) == all[left];
  }

  /** A history with an orphan and a free call of its name is changed by pass 3. */
  lemma OrphanMeetsCall(all: seq<Part>, k: nat, name: string)
    requires k < |all| && OrphanNamed(all, k, name) && Free(CallIds(all, name), ResponseIds(all, name)) != []
    ensures Pass3(all) != all
  {
    OrphansGrow(all, k + 1, |all|, name);
    var first := NthOrphan(all, |all|, name, 0);
    RepairedIff(all, first);
    assert Pass3(all)[first] == Repaired(all, first);
  }

  lemma HiddenRepairShows(all: seq<Part>, k: nat)
    requires k < |all| && IsCall(all[k]) && Repaired(all, k) != all[k] && IsOrphan(all, all[k])
    requires var name := NameOf(all[k].response.value);
             Orphans(all, |all|, name) > |Free(CallIds(all, name), ResponseIds(all, name))|
    ensures Pass3(Pass3(all)) != Pass3(all)
  {
    var name := NameOf(all[k].response.value);
    HiddenIdLooksFree(all, k);
    var left := OrphanIsLeft(all, name);
    OrphanMeetsCall(Pass3(all), left, name);
  }

  /** Repairing twice is repairing once exactly if no repair is hidden in a part that is
      also a call while orphans of its name are left. */
  lemma RepairIsIdempotentIff(all: seq<Part>)
    ensures Pass3(Pass3(all)) == Pass3(all) <==> RepairsAreSeen(all)
  {
    if RepairsAreSeen(all) {
      forall k | 0 <= k < |all| ensures Pass3(Pass3(all))[k] == Pass3(all)[k] {
        SeenIsIdempotent(all, k);
      }
    } else {
      var k :| 0 <= k < |all| && IsOrphan(all, all[k]) && Hidden(all, k, NameOf(all[k].response.value))
               && Orphans(all, |all|, NameOf(all[k].response.value)) >
                    |Free(CallIds(all, NameOf(all[k].response.value)), ResponseIds(all, NameOf(all[k].response.value)))|;
      RepairedIff(all, k);
      HiddenRepairShows(all, k);
    }
  }

  /** Without parts that are both call and response no repair is hidden. */
  lemma SeparatePartsAreSeen(all: seq<Part>)
    requires forall k :: 0 <= k < |all| ==> !(IsCall(all[k]) && IsResponse(all[k]))
    ensures Pass3(Pass3(all)) == Pass3(all)
  {
    RepairIsIdempotentIff(all);
  }

  lemma {:induction false} NthIdless(parts: seq<Part>, name: string, m: nat) returns (k: nat)
    requires m < Idless(parts, name)
    ensures k < |parts| && IsIdless(parts[k], name) && Idless(parts[..k], name) == m
    decreases |parts|
  {
    var n := |parts| - 1;
    if m < Idless(parts[..n], name) {
      k := NthIdless(parts[..n], name, m);
      assert parts[..n][..k] == parts[..k];
    } else {
      k := n;
    }
  }

  lemma {:induction false} IdlessGrows(parts: seq<Part>, name: string, k: nat)
    requires k < |parts| && IsIdless(parts[k], name)
    ensures Idless(parts[..k], name) < Idless(parts, name)
    decreases |parts|
  {
    if k < |parts| - 1 {
      IdlessGrows(parts[..|parts| - 1], name, k);
      assert parts[..|parts| - 1][..k] == parts[..k];
    }
  }

  /** The responses without an id fit the calls of their name, if it has any calls. */
  predicate CallsSuffice(parts: seq<Part>)
  {
    forall k :: 0 <= k < |parts| && IsResponse(parts[k]) && !Truthy(parts[k].response.value.id) ==>
      var name := NameOf(parts[k].response.value);
      Calls(parts, name) == 0 || Idless(parts, name) <= Calls(parts, name)
  }

  /** A response is still without an id after the pipeline exactly if it had none and the
      calls of its name were used up before it. */
  lemma StillIdlessIff(newId: nat -> string, parts: seq<Part>, k: nat, name: string)
    requires (forall i :: newId(i) != "") && k < |parts|
    ensures IsIdless(Pipeline(newId, parts)[k], name) <==>
      IsIdless(parts[k], name) && Calls(parts, name) <= Idless(parts[..k], name)
  {
    var withIds := Pass1(newId, parts);
    Pass1Facts(newId, parts);
    CallsAreCounted(newId, parts, name);
    IdlessSoFar(parts, withIds, k, name);
    assert IsIdless(parts[k], name) == IsIdless(withIds[k], name);
    PairedIdless(withIds, k, name);
    assert Pipeline(newId, parts)[k] == Repaired(PairedBy(withIds), k);
    KeepsIdless(PairedBy(withIds), k, name);
  }

  lemma PairedIdless(all: seq<Part>, k: nat, name: string)
    requires k < |all|
    ensures IsIdless(PairedBy(all)[k], name) <==> IsIdless(all[k], name) && |CallIds(all, name)| <= Idless(all[..k], name)
  {
    assert PairedBy(all)[k] == Paired(all, k);
    CallIdsAreCallIds(all, name);
    if IsIdless(all[k], name) && Idless(all[..k], name) < |CallIds(all, name)| {
      assert CallIds(all, name)[Idless(all[..k], name)] in CallIds(all, name);
    }
  }

  lemma CallsStay(newId: nat -> string, parts: seq<Part>, name: string)
    requires forall i :: newId(i) != ""
    ensures |CallIds(Pipeline(newId, parts), name)| == Calls(parts, name)
  {
    CallsAreCounted(newId, parts, name);
    CallsAreKept(newId, parts);
    SameCallsSameIds(Pass1(newId, parts), Pipeline(newId, parts), name);
  }

  lemma KeepsIdless(all: seq<Part>, k: nat, name: string)
    requires k < |all|
    ensures IsIdless(Repaired(all, k), name) <==> IsIdless(all[k], name)
  {
    if IsOrphan(all, all[k]) {
      var n := NameOf(all[k].response.value);
      var left := Unclaimed(CallIds(all, n), Claimed(all, k, n));
      UnclaimedIsNew(CallIds(all, n), Claimed(all, k, n));
      CallIdsAreCallIds(all, n);
      if left != [] {
        assert left[0] in left;
        assert left[0] in CallIds(all, n) && left[0] != "";
      }
    }
  }

  /** On its own output the pipeline is pass 2 followed by a repair. */
  lemma SecondRun(newId: nat -> string, other: nat -> string, parts: seq<Part>)
    requires forall i :: newId(i) != ""
    ensures var out := Pipeline(newId, parts); Pipeline(other, out) == Pass3(PairedBy(out))
  {
    var out := Pipeline(newId, parts);
    Pass1Facts(newId, parts);
    CallsAreKept(newId, parts);
    assert CallsHaveIds(out);
    forall k | 0 <= k < |out| ensures Pass1(other, out)[k] == out[k] {
      assert Pass1(other, out)[k] == Assigned(out[k], other(Missing(out[..k])));
    }
    assert Pass1(other, out) == out;
  }

  /** The pipeline is idempotent exactly on the histories whose responses without an id do
      not outnumber the calls of their name, and in which no repair is hidden. */
  lemma IdempotentIff(newId: nat -> string, other: nat -> string, parts: seq<Part>)
    requires forall i :: newId(i) != ""
    ensures var out := Pipeline(newId, parts);
            Pipeline(other, out) == out <==> CallsSuffice(parts) && RepairsAreSeen(PairedBy(Pass1(newId, parts)))
  {
    SecondRun(newId, other, parts);
    if CallsSuffice(parts) {
      SufficientIsPaired(newId, parts);
      RepairIsIdempotentIff(PairedBy(Pass1(newId, parts)));
    } else {
      var k :| 0 <= k < |parts| && IsResponse(parts[k]) && !Truthy(parts[k].response.value.id)
               && Calls(parts, NameOf(parts[k].response.value)) != 0
               && Idless(parts, NameOf(parts[k].response.value)) > Calls(parts, NameOf(parts[k].response.value));
      OutnumberedChanges(newId, parts, NameOf(parts[k].response.value));
    }
  }

  /** So for histories whose parts hold a call or a response but not both, whatever ids are
      generated: exactly if every name with calls has enough of them. */
  lemma SeparatePartsIdempotentIff(newId: nat -> string, other: nat -> string, parts: seq<Part>)
    requires forall i :: newId(i) != ""
    requires forall k :: 0 <= k < |parts| ==> !(IsCall(parts[k]) && IsResponse(parts[k]))
    ensures var out := Pipeline(newId, parts); Pipeline(other, out) == out <==> CallsSuffice(parts)
  {
    IdempotentIff(newId, other, parts);
    var paired := PairedBy(Pass1(newId, parts));
    forall k | 0 <= k < |paired| ensures !(IsCall(paired[k]) && IsResponse(paired[k])) {
      assert Pass1(newId, parts)[k] == Assigned(parts[k], newId(Missing(parts[..k])));
      assert paired[k] == Paired(Pass1(newId, parts), k);
    }
    assert RepairsAreSeen(paired);
  }

  lemma SufficientIsPaired(newId: nat -> string, parts: seq<Part>)
    requires (forall i :: newId(i) != "") && CallsSuffice(parts)
    ensures PairedBy(Pipeline(newId, parts)) == Pipeline(newId, parts)
  {
    var out := Pipeline(newId, parts);
    forall k | 0 <= k < |out| ensures Paired(out, k) == out[k] {
      if IsResponse(out[k]) && !Truthy(out[k].response.value.id) {
        var name := NameOf(out[k].response.value);
        assert IsIdless(out[k], name);
        StillIdlessIff(newId, parts, k, name);
        IdlessGrows(parts, name, k);
        CallsStay(newId, parts, name);
      }
    }
  }

  /** Pass 2 gives the first response without an id one, if its name has calls. */
  lemma FirstIsPaired(all: seq<Part>, name: string) returns (k: nat)
    requires Idless(all, name) > 0 && |CallIds(all, name)| > 0
    ensures k < |all| && IsIdless(all[k], name) && !IsIdless(PairedBy(all)[k], name)
  {
    k := NthIdless(all, name, 0);
    CallIdsAreCallIds(all, name);
    assert CallIds(all, name)[0] in CallIds(all, name);
    assert PairedBy(all)[k] == Paired(all, k);
  }

  lemma OutnumberedChanges(newId: nat -> string, parts: seq<Part>, name: string)
    requires (forall i :: newId(i) != "") && Idless(parts, name) > Calls(parts, name) > 0
    ensures var out := Pipeline(newId, parts); Pass3(PairedBy(out)) != out
  {
    var out := Pipeline(newId, parts);
    var late := NthIdless(parts, name, Calls(parts, name));
    StillIdlessIff(newId, parts, late, name);
    IdlessGrows(out, name, late);
    CallsStay(newId, parts, name);
    var k := FirstIsPaired(out, name);
    KeepsIdless(PairedBy(out), k, name);
    assert Pass3(PairedBy(out))[k] == Repaired(PairedBy(out), k);
  }

  /** After the repair of part `k` another response with its name has the same id. */
  predicate DoubleClaim(all: seq<Part>, k: nat)
    requires k < |all| && IsOrphan(all, all[k])
  {
    && Repaired(all, k) != all[k]
    && exists j :: 0 <= j < |all| && j != k && IsResponse(Repaired(all, j))
                   && NameOf(Repaired(all, j).response.value) == NameOf(all[k].response.value)
                   && Repaired(all, j).response.value.id == Repaired(all, k).response.value.id
  }

  /** The response of a part that is also a call answers the call `id` of this name. */
  predicate AnsweredBeside(all: seq<Part>, name: string, id: string)
  {
    exists i :: 0 <= i < |all| && IsCall(all[i]) && IsResponse(all[i]) && NameOf(all[i].response.value) == name
                && all[i].response.value.id == Some(id)
  }

  /** Responses of a part that also holds a call are not counted as claims. So a repair gives
      out an id that a response of its name already has exactly if the next free call is
      answered by such a part. */
  lemma DoubleClaimIff(all: seq<Part>, k: nat)
    requires k < |all| && IsOrphan(all, all[k])
    ensures var name := NameOf(all[k].response.value);
            var free := Free(CallIds(all, name), ResponseIds(all, name));
            DoubleClaim(all, k) <==>
              Orphans(all, k, name) < |free| && AnsweredBeside(all, name, free[Orphans(all, k, name)])
  {
    var name := NameOf(all[k].response.value);
    RepairedIff(all, k);
    if Repaired(all, k) != all[k] {
      RepairTakesUnclaimed(all, k);
      var id := Repaired(all, k).response.value.id.value;
      if DoubleClaim(all, k) {
        ClaimedBeside(all, k, name, id);
      }
      if AnsweredBeside(all, name, id) {
        var i :| 0 <= i < |all| && IsCall(all[i]) && IsResponse(all[i]) && NameOf(all[i].response.value) == name
                 && all[i].response.value.id == Some(id);
        CallIdsAreCallIds(all, name);
        assert Repaired(all, i) == all[i];
      }
    }
  }

  lemma ClaimedBeside(all: seq<Part>, k: nat, name: string, id: string)
    requires k < |all| && IsOrphan(all, all[k]) && NameOf(all[k].response.value) == name && DoubleClaim(all, k)
    requires Repaired(all, k).response.value.id == Some(id)
    ensures AnsweredBeside(all, name, id)
  {
    var j :| 0 <= j < |all| && j != k && IsResponse(Repaired(all, j))
             && NameOf(Repaired(all, j).response.value) == name && Repaired(all, j).response.value.id == Some(id);
    RepairTakesUnclaimed(all, k);
    if Repaired(all, j) != all[j] {
      if j < k {
        NamesakesDiffer(all, j, k);
      } else {
        NamesakesDiffer(all, k, j);
      }
    } else if !IsCall(all[j]) {
      var c := CallAt(all, name, id);
      InResponseIds(all, j, name);
    }
  }

  /** A history in which that happens. */
  lemma BothCanDoubleClaim() returns (all: seq<Part>)
    ensures |all| == 2 && DistinctCalls(all) && IsCall(all[0]) && IsResponse(all[0])
    ensures IsResponse(all[1]) && all[0].response != all[1].response
    ensures IsResponse(Pass3(all)[0]) && IsResponse(Pass3(all)[1]) && Pass3(all)[0].response == Pass3(all)[1].response
  {
    var answered := DictPart(Some(Fn(Some("f"), Some("a"), "")), Some(Fn(Some("f"), Some("a"), "")), "");
    var orphan := DictPart(None, Some(Fn(Some("f"), Some("b"), "")), "");
    all := [answered, orphan];
    assert all[..1] == [answered] && all[..0] == [];
    assert AllCallIds([answered]) == {"a"};
    assert CallIds([answered], "f") == ["a"];
    assert ResponseIds([answered], "f") == [];
    assert AllCallIds(all) == {"a"} && CallIds(all, "f") == ["a"] && ResponseIds(all, "f") == ["b"];
    assert Claimed(all, 1, "f") == ["b"];
    assert Unclaimed(["a"], ["b"]) == ["a"];
    assert Repaired(all, 0) == answered && Repaired(all, 1) == WithResponseId(orphan, "a");
  }
}
