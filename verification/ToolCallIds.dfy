/** Ids handed out by the pairing pipeline do not collide: generated ids are new, and every
    response without an id gets one of its own. */
module ToolCallIds {
  import opened Prelude
  import opened ToolPairing
  import opened ToolPairingProofs

  /** Generated ids are pairwise different, and no call has one of them already. */
  ghost predicate Generates(newId: nat -> string, parts: seq<Part>)
  {
    && (forall i :: newId(i) != "" && newId(i) !in AllCallIds(parts))
    && (forall i, j :: newId(i) == newId(j) ==> i == j)
  }

  lemma {:induction false} MissingGrows(parts: seq<Part>, c: nat, d: nat)
    requires c <= d <= |parts|
    ensures Missing(parts[..c]) <= Missing(parts[..d])
    ensures c < d && IsCall(parts[c]) && !Truthy(parts[c].call.value.id) ==> Missing(parts[..c]) < Missing(parts[..d])
    decreases d - c
  {
    if c < d {
      MissingGrows(parts, c, d - 1);
      assert parts[..d][..d - 1] == parts[..d - 1];
    }
  }

  lemma {:induction false} GivenIdIsKnown(parts: seq<Part>, c: nat)
    requires c < |parts| && IsCall(parts[c]) && Truthy(parts[c].call.value.id)
    ensures parts[c].call.value.id.value in AllCallIds(parts)
    decreases |parts|
  {
    if c < |parts| - 1 {
      GivenIdIsKnown(parts[..|parts| - 1], c);
    }
  }

  /** The id of a call after pass 1. */
  lemma CallIdIs(newId: nat -> string, parts: seq<Part>, c: nat)
    requires c < |parts| && IsCall(parts[c])
    ensures var p := Pass1(newId, parts)[c];
            IsCall(p) && p.call.value.id ==
              if Truthy(parts[c].call.value.id) then parts[c].call.value.id else Some(newId(Missing(parts[..c])))
  {
    assert Pass1(newId, parts)[c] == Assigned(parts[c], newId(Missing(parts[..c])));
  }

  lemma AssignedIdsDiffer(newId: nat -> string, parts: seq<Part>, c: nat, d: nat)
    requires Generates(newId, parts) && c < d < |parts| && IsCall(parts[c]) && IsCall(parts[d])
    requires Pass1(newId, parts)[c].call.value.id == Pass1(newId, parts)[d].call.value.id
    ensures Truthy(parts[c].call.value.id) && parts[c].call.value.id == parts[d].call.value.id
  {
    CallIdIs(newId, parts, c);
    CallIdIs(newId, parts, d);
    MissingGrows(parts, c, d);
    if Truthy(parts[c].call.value.id) {
      GivenIdIsKnown(parts, c);
    } else if Truthy(parts[d].call.value.id) {
      GivenIdIsKnown(parts, d);
    }
  }

  /** Two calls end with one id only if both came with it. */
  lemma CallsShareOnlyGivenIds(newId: nat -> string, parts: seq<Part>, c: nat, d: nat)
    requires Generates(newId, parts) && c < d < |parts| && IsCall(parts[c]) && IsCall(parts[d])
    ensures var out := Pipeline(newId, parts);
            && IsCall(out[c]) && IsCall(out[d])
            && (out[c].call.value.id == out[d].call.value.id <==>
                  Truthy(parts[c].call.value.id) && parts[c].call.value.id == parts[d].call.value.id)
  {
    var withIds := Pass1(newId, parts);
    CallsAreKept(newId, parts);
    CallIdIs(newId, parts, c);
    CallIdIs(newId, parts, d);
    if withIds[c].call.value.id == withIds[d].call.value.id {
      AssignedIdsDiffer(newId, parts, c, d);
    }
  }

  /** So calls whose given ids are distinct end with distinct ids, all of them. */
  lemma CallsStayDistinct(newId: nat -> string, parts: seq<Part>)
    requires Generates(newId, parts) && DistinctCalls(parts)
    ensures DistinctCalls(Pass1(newId, parts)) && DistinctCalls(Pipeline(newId, parts))
  {
    var withIds, out := Pass1(newId, parts), Pipeline(newId, parts);
    Pass1Facts(newId, parts);
    CallsAreKept(newId, parts);
    forall c, d | 0 <= c < d < |parts| && IsCall(parts[c]) && IsCall(parts[d])
      ensures withIds[c].call.value.id != withIds[d].call.value.id
    {
      if withIds[c].call.value.id == withIds[d].call.value.id {
        AssignedIdsDiffer(newId, parts, c, d);
      }
    }
  }

  // ---------------------------------------------------------------- responses

  predicate NoRepeats(ids: seq<string>)
  {
    forall i, j :: 0 <= i < j < |ids| ==> ids[i] != ids[j]
  }

  lemma {:induction false} CallIdsDiffer(parts: seq<Part>, name: string)
    requires DistinctCalls(parts)
    ensures NoRepeats(CallIds(parts, name))
    decreases |parts|
  {
    if parts != [] {
      var n := |parts| - 1;
      CallIdsDiffer(parts[..n], name);
      var last := CallIdOf(parts[n], name);
      if last != [] && last[0] in CallIds(parts[..n], name) {
        var c := CallAt(parts[..n], name, last[0]);
        assert false;
      }
    }
  }

  lemma {:induction false} IdlessRank(parts: seq<Part>, j: nat, k: nat, name: string)
    requires j < k <= |parts| && IsIdless(parts[j], name)
    ensures Idless(parts[..j], name) < Idless(parts[..k], name)
    decreases k - j
  {
    assert parts[..k][..k - 1] == parts[..k - 1];
    if j < k - 1 {
      IdlessRank(parts, j, k - 1, name);
    }
  }

  /** What pass 2 gives a response without an id is the id of a call, and stays. */
  lemma PairedIdStays(all: seq<Part>, k: nat, name: string)
    requires k < |all| && IsIdless(all[k], name)
    ensures var ids, rank := CallIds(all, name), Idless(all[..k], name);
            Pass3(PairedBy(all))[k] == if rank < |ids| then WithResponseId(all[k], ids[rank]) else all[k]
  {
    var paired, ids, rank := PairedBy(all), CallIds(all, name), Idless(all[..k], name);
    assert paired[k] == Paired(all, k);
    assert Pass3(paired)[k] == Repaired(paired, k);
    if rank < |ids| {
      PassesKeepCalls(all);
      SameCallsSameIds(all, paired, name);
      CallIdsAreCallIds(all, name);
      assert ids[rank] in CallIds(all, name);
      assert !IsOrphan(paired, paired[k]);
    }
  }

  lemma IdlessEndsWith(newId: nat -> string, parts: seq<Part>, k: nat, name: string)
    requires (forall i :: newId(i) != "") && k < |parts| && IsIdless(parts[k], name)
    ensures var withIds, out := Pass1(newId, parts), Pipeline(newId, parts);
            var rank := Idless(withIds[..k], name);
            && IsIdless(withIds[k], name) && IsResponse(out[k])
            && (Truthy(out[k].response.value.id) ==>
                  rank < |CallIds(withIds, name)| && out[k].response.value.id == Some(CallIds(withIds, name)[rank]))
  {
    Pass1Facts(newId, parts);
    PairedIdStays(Pass1(newId, parts), k, name);
  }

  /** Responses without an id never get the same one, if the calls' own ids are distinct. */
  lemma IdlessResponsesDiffer(newId: nat -> string, parts: seq<Part>, j: nat, k: nat)
    requires Generates(newId, parts) && DistinctCalls(parts) && j < k < |parts|
    requires IsResponse(parts[j]) && IsResponse(parts[k])
    requires !Truthy(parts[j].response.value.id) && !Truthy(parts[k].response.value.id)
    ensures var out := Pipeline(newId, parts);
            && IsResponse(out[j]) && IsResponse(out[k])
            && (Truthy(out[j].response.value.id) && Truthy(out[k].response.value.id) ==>
                  out[j].response.value.id != out[k].response.value.id)
  {
    var m, n := NameOf(parts[j].response.value), NameOf(parts[k].response.value);
    var withIds := Pass1(newId, parts);
    IdlessEndsWith(newId, parts, j, m);
    IdlessEndsWith(newId, parts, k, n);
    CallsStayDistinct(newId, parts);
    var out := Pipeline(newId, parts);
    if Truthy(out[j].response.value.id) && Truthy(out[k].response.value.id) {
      if m == n {
        CallIdsDiffer(withIds, n);
        IdlessRank(withIds, j, k, n);
      } else {
        OneName(withIds, m, n, out[j].response.value.id.value);
      }
    }
  }
}
