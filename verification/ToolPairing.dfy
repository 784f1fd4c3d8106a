/** Pairing tool calls with tool responses: koder_agent/auth/tool_utils.py. The meaning of
    each pass is given per part of the flattened history; the methods run the nested loops
    over contents and parts. */
module ToolPairing {
  import opened Prelude

  /** The body of a functionCall or functionResponse; `rest` stands for its other keys. */
  datatype Fn = Fn(name: Option<string>, id: Option<string>, rest: string)

  /** A part that is not a dict, or one with a call, a response, both or neither. */
  datatype Part = OtherPart(value: string) | DictPart(call: Option<Fn>, response: Option<Fn>, rest: string)

  /** Raw: not a dict, or a dict whose parts are not a list. */
  datatype Content = Raw(value: string) | NoParts(rest: string) | Parts(parts: seq<Part>, rest: string)

  predicate Truthy(id: Option<string>)
  {
    id.Some? && id.value != ""
  }

  function NameOf(f: Fn): string
  {
    if f.name.Some? then f.name.value else "unknown"
  }

  predicate IsCall(p: Part)
  {
    p.DictPart? && p.call.Some?
  }

  predicate IsResponse(p: Part)
  {
    p.DictPart? && p.response.Some?
  }

  function WithCallId(p: Part, id: string): Part
    requires IsCall(p)
  {
    p.(call := Some(p.call.value.(id := Some(id))))
  }

  function WithResponseId(p: Part, id: string): Part
    requires IsResponse(p)
  {
    p.(response := Some(p.response.value.(id := Some(id))))
  }

  function PartsOf(c: Content): seq<Part>
  {
    if c.Parts? then c.parts else []
  }

  /** All parts of a history, in order. */
  function Flat(cs: seq<Content>): seq<Part>
  {
    if cs == [] then [] else Flat(cs[..|cs| - 1]) + PartsOf(cs[|cs| - 1])
  }

  // ----------------------------------------------------- what the passes collect

  /** Calls without an id so far. */
  function Missing(parts: seq<Part>): nat
  {
    if parts == [] then 0
    else
      var p := parts[|parts| - 1];
      Missing(parts[..|parts| - 1]) + (if IsCall(p) && !Truthy(p.call.value.id) then 1 else 0)
  }

  function CallIdOf(p: Part, name: string): seq<string>
  {
    if IsCall(p) && Truthy(p.call.value.id) && NameOf(p.call.value) == name then [p.call.value.id.value] else []
  }

  /** A part that also holds a call is passed over. */
  function ResponseIdOf(p: Part, name: string): seq<string>
  {
    if !IsCall(p) && IsResponse(p) && Truthy(p.response.value.id) && NameOf(p.response.value) == name
    then [p.response.value.id.value] else []
  }

  /** The ids of the calls with this name, in order. */
  function CallIds(parts: seq<Part>, name: string): seq<string>
  {
    if parts == [] then [] else CallIds(parts[..|parts| - 1], name) + CallIdOf(parts[|parts| - 1], name)
  }

  function AllCallIds(parts: seq<Part>): set<string>
  {
    if parts == [] then {}
    else
      var p := parts[|parts| - 1];
      AllCallIds(parts[..|parts| - 1]) + (if IsCall(p) && Truthy(p.call.value.id) then {p.call.value.id.value} else {})
  }

  /** The ids of the responses with this name, in order. */
  function ResponseIds(parts: seq<Part>, name: string): seq<string>
  {
    if parts == [] then [] else ResponseIds(parts[..|parts| - 1], name) + ResponseIdOf(parts[|parts| - 1], name)
  }

  predicate IsIdless(p: Part, name: string)
  {
    IsResponse(p) && !Truthy(p.response.value.id) && NameOf(p.response.value) == name
  }

  /** Responses with this name that have no id. */
  function Idless(parts: seq<Part>, name: string): nat
  {
    if parts == [] then 0
    else Idless(parts[..|parts| - 1], name) + (if IsIdless(parts[|parts| - 1], name) then 1 else 0)
  }

  // ------------------------------------------------------------------ pass 1

  function Assigned(p: Part, newId: string): Part
  {
    if IsCall(p) && !Truthy(p.call.value.id) then WithCallId(p, newId) else p
  }

  /** Calls without an id get the generated ids in order. */
  function Pass1(newId: nat -> string, parts: seq<Part>): seq<Part>
  {
    seq(|parts|, k requires 0 <= k < |parts| => Assigned(parts[k], newId(Missing(parts[..k]))))
  }

  type Queues = map<string, seq<string>>

  function Queue(q: Queues, name: string): seq<string>
  {
    if name in q then q[name] else []
  }

  // ------------------------------------------------------------------ pass 2

  /** The k-th response without an id takes the k-th pending id of its name. */
  function Matched(pending: Queues, parts: seq<Part>, k: nat): Part
    requires k < |parts|
  {
    var p := parts[k];
    if !IsResponse(p) || Truthy(p.response.value.id) then p
    else
      var ids, before := Queue(pending, NameOf(p.response.value)), Idless(parts[..k], NameOf(p.response.value));
      if before < |ids| then WithResponseId(p, ids[before]) else p
  }

  function Pass2(pending: Queues, parts: seq<Part>): seq<Part>
  {
    seq(|parts|, k requires 0 <= k < |parts| => Matched(pending, parts, k))
  }

  // ------------------------------------------------------------------ pass 3

  function Unclaimed(ids: seq<string>, claimed: seq<string>): seq<string>
  {
    if ids == [] then []
    else (if ids[0] in claimed then [] else [ids[0]]) + Unclaimed(ids[1..], claimed)
  }

  predicate IsOrphan(all: seq<Part>, p: Part)
  {
    IsResponse(p) && Truthy(p.response.value.id) && p.response.value.id.value !in AllCallIds(all)
  }

  /** What responses with this name claim before part k is repaired. */
  function Claimed(all: seq<Part>, k: nat, name: string): seq<string>
    requires k <= |all|
  {
    if k == 0 then ResponseIds(all, name)
    else
      var claimed := Claimed(all, k - 1, name);
      var left := Unclaimed(CallIds(all, name), claimed);
      if IsOrphan(all, all[k - 1]) && NameOf(all[k - 1].response.value) == name && left != [] then claimed + [left[0]]
      else claimed
  }

  /** An orphan takes the first call id of its name that no response claims. */
  function Repaired(all: seq<Part>, k: nat): Part
    requires k < |all|
  {
    var p := all[k];
    if !IsOrphan(all, p) then p
    else
      var name := NameOf(p.response.value);
      var left := Unclaimed(CallIds(all, name), Claimed(all, k, name));
      if left == [] then p else WithResponseId(p, left[0])
  }

  function Pass3(all: seq<Part>): seq<Part>
  {
    seq(|all|, k requires 0 <= k < |all| => Repaired(all, k))
  }

  /** The queues pass 1 hands to pass 2. */
  ghost predicate Pending(q: Queues, parts: seq<Part>)
  {
    forall name :: Queue(q, name) == CallIds(parts, name)
  }

  // ------------------------------------------------------------- what is kept

  predicate SameFn(f: Option<Fn>, g: Option<Fn>)
  {
    (f.None? && g.None?) || (f.Some? && g.Some? && f.value.name == g.value.name && f.value.rest == g.value.rest)
  }

  predicate SamePart(p: Part, q: Part)
  {
    if p.OtherPart? then p == q
    else q.DictPart? && p.rest == q.rest && SameFn(p.call, q.call) && SameFn(p.response, q.response)
  }

  predicate SameParts(ps: seq<Part>, qs: seq<Part>)
  {
    |ps| == |qs| && forall k :: 0 <= k < |ps| ==> SamePart(ps[k], qs[k])
  }

  predicate SameContent(c: Content, d: Content)
  {
    if c.Parts? then d.Parts? && c.rest == d.rest && SameParts(c.parts, d.parts) else c == d
  }

  /** Nothing but ids differs. */
  predicate SameButIds(cs: seq<Content>, ds: seq<Content>)
  {
    |cs| == |ds| && forall i :: 0 <= i < |cs| ==> SameContent(cs[i], ds[i])
  }

  /** Pass 3 writes an empty list of parts into a content that has none. */
  function Normal(c: Content): Content
  {
    if c.NoParts? then Parts([], c.rest) else c
  }

  function Normalized(cs: seq<Content>): seq<Content>
  {
    seq(|cs|, i requires 0 <= i < |cs| => Normal(cs[i]))
  }

  // ---------------------------------------------------------------- loop steps

  lemma FlatOne(cs: seq<Content>, c: Content)
    ensures Flat(cs + [c]) == Flat(cs) + PartsOf(c)
  {
    assert (cs + [c])[..|cs|] == cs;
  }

  lemma CollectOne(parts: seq<Part>, p: Part, name: string)
    ensures CallIds(parts + [p], name) == CallIds(parts, name) + CallIdOf(p, name)
    ensures ResponseIds(parts + [p], name) == ResponseIds(parts, name) + ResponseIdOf(p, name)
    ensures Idless(parts + [p], name) == Idless(parts, name) + (if IsIdless(p, name) then 1 else 0)
    ensures Missing(parts + [p]) == Missing(parts) + (if IsCall(p) && !Truthy(p.call.value.id) then 1 else 0)
    ensures AllCallIds(parts + [p]) ==
      AllCallIds(parts) + (if IsCall(p) && Truthy(p.call.value.id) then {p.call.value.id.value} else {})
  {
    assert (parts + [p])[..|parts|] == parts;
  }

  lemma Pass1One(newId: nat -> string, parts: seq<Part>, p: Part)
    ensures Pass1(newId, parts + [p]) == Pass1(newId, parts) + [Assigned(p, newId(Missing(parts)))]
  {
    forall k | 0 <= k < |parts| ensures (parts + [p])[..k] == parts[..k] {
    }
    assert (parts + [p])[..|parts|] == parts;
  }

  lemma Pass2One(pending: Queues, parts: seq<Part>, p: Part)
    ensures Pass2(pending, parts + [p]) == Pass2(pending, parts) + [Matched(pending, parts + [p], |parts|)]
  {
    forall k | 0 <= k < |parts| ensures (parts + [p])[..k] == parts[..k] {
    }
  }

  lemma AddContent(cs: seq<Content>, ds: seq<Content>, c: Content, d: Content)
    requires SameButIds(cs, ds) && SameContent(c, d)
    ensures SameButIds(cs + [c], ds + [d])
    ensures Flat(cs + [c]) == Flat(cs) + PartsOf(c) && Flat(ds + [d]) == Flat(ds) + PartsOf(d)
    ensures !c.Parts? ==> Flat(cs + [c]) == Flat(cs) && Flat(ds + [d]) == Flat(ds)
  {
    FlatOne(cs, c);
    FlatOne(ds, d);
  }

  // -------------------------------------------------------------- pass 1, run

  /** Pass 1 so far: the parts done, the ids made and the queues filled. */
  ghost predicate Done1(newId: nat -> string, parts: seq<Part>, done: seq<Part>, made: nat, pending: Queues)
  {
    done == Pass1(newId, parts) && made == Missing(parts) && Pending(pending, done)
  }

  lemma CallFollows(parts: seq<Part>, p: Part, was: Queues, now: Queues, name: string)
    requires Queue(was, name) == CallIds(parts, name)
    requires now ==
      if IsCall(p) && Truthy(p.call.value.id)
      then was[NameOf(p.call.value) := Queue(was, NameOf(p.call.value)) + [p.call.value.id.value]] else was
    ensures Queue(now, name) == CallIds(parts + [p], name)
  {
    CollectOne(parts, p, name);
    assert Queue(now, name) == Queue(was, name) + CallIdOf(p, name);
  }

  lemma CallsFollow(parts: seq<Part>, p: Part, was: Queues, now: Queues)
    requires Pending(was, parts)
    requires now ==
      if IsCall(p) && Truthy(p.call.value.id)
      then was[NameOf(p.call.value) := Queue(was, NameOf(p.call.value)) + [p.call.value.id.value]] else was
    ensures Pending(now, parts + [p])
  {
    forall name ensures Queue(now, name) == CallIds(parts + [p], name) {
      CallFollows(parts, p, was, now, name);
    }
  }

  method AssignPart(part: Part, newId: nat -> string, made: nat, pending: Queues, ghost parts: seq<Part>,
      ghost done: seq<Part>)
    returns (newPart: Part, made': nat, pending': Queues)
    requires forall i :: newId(i) != ""
    requires Done1(newId, parts, done, made, pending)
    ensures Done1(newId, parts + [part], done + [newPart], made', pending') && SamePart(part, newPart)
  {
    newPart, made', pending' := part, made, pending;
    if part.DictPart? && part.call.Some? {
      var call := part.call.value;
      if !Truthy(call.id) {
        call := call.(id := Some(newId(made)));
        made' := made + 1;
      }
      pending' := pending[NameOf(call) := Queue(pending, NameOf(call)) + [call.id.value]];
      newPart := part.(call := Some(call));
    }
    Pass1One(newId, parts, part);
    CollectOne(parts, part, "");
    CallsFollow(done, newPart, pending, pending');
  }

  method AssignParts(parts: seq<Part>, newId: nat -> string, made: nat, pending: Queues,
      ghost before: seq<Part>, ghost done: seq<Part>)
    returns (newParts: seq<Part>, made': nat, pending': Queues)
    requires forall i :: newId(i) != ""
    requires Done1(newId, before, done, made, pending)
    ensures Done1(newId, before + parts, done + newParts, made', pending') && SameParts(parts, newParts)
  {
    newParts, made', pending' := [], made, pending;
    assert before + parts[..0] == before && done + newParts == done;
    for j := 0 to |parts|
      invariant SameParts(parts[..j], newParts)
      invariant Done1(newId, before + parts[..j], done + newParts, made', pending')
    {
      var newPart;
      newPart, made', pending' := AssignPart(parts[j], newId, made', pending', before + parts[..j], done + newParts);
      assert before + parts[..j] + [parts[j]] == before + parts[..j + 1];
      assert done + newParts + [newPart] == done + (newParts + [newPart]);
      newParts := newParts + [newPart];
    }
    assert parts[..|parts|] == parts;
  }

  method AssignToolCallIds(contents: seq<Content>, newId: nat -> string) returns (result: seq<Content>, pending: Queues)
    requires forall i :: newId(i) != ""
    ensures Flat(result) == Pass1(newId, Flat(contents)) && SameButIds(contents, result)
    ensures Pending(pending, Flat(result))
  {
    result, pending := [], map[];
    var made: nat := 0;
    for i := 0 to |contents|
      invariant SameButIds(contents[..i], result)
      invariant Done1(newId, Flat(contents[..i]), Flat(result), made, pending)
    {
      var content := contents[i];
      assert contents[..i + 1] == contents[..i] + [content];
      if !content.Parts? {
        AddContent(contents[..i], result, content, content);
        result := result + [content];
        continue;
      }
      var newParts;
      newParts, made, pending := AssignParts(content.parts, newId, made, pending, Flat(contents[..i]), Flat(result));
      AddContent(contents[..i], result, content, content.(parts := newParts));
      result := result + [content.(parts := newParts)];
    }
    assert contents[..|contents|] == contents;
  }

  // -------------------------------------------------------------- pass 2, run

  function Rest(ids: seq<string>, taken: nat): seq<string>
  {
    if taken >= |ids| then [] else ids[taken..]
  }

  /** Pass 2 so far: the queues hold what the responses without an id have not taken. */
  ghost predicate Done2(pending: Queues, parts: seq<Part>, done: seq<Part>, queues: Queues)
  {
    done == Pass2(pending, parts) &&
    forall name :: Queue(queues, name) == Rest(Queue(pending, name), Idless(parts, name))
  }

  lemma PopFollows(was: Queues, now: Queues, pending: Queues, parts: seq<Part>, p: Part)
    requires forall name :: Queue(was, name) == Rest(Queue(pending, name), Idless(parts, name))
    requires now ==
      if IsResponse(p) && !Truthy(p.response.value.id) && Queue(was, NameOf(p.response.value)) != []
      then was[NameOf(p.response.value) := Queue(was, NameOf(p.response.value))[1..]] else was
    ensures forall name :: Queue(now, name) == Rest(Queue(pending, name), Idless(parts + [p], name))
  {
    forall name ensures Queue(now, name) == Rest(Queue(pending, name), Idless(parts + [p], name)) {
      CollectOne(parts, p, name);
      assert Queue(was, name) == Rest(Queue(pending, name), Idless(parts, name));
    }
  }

  method MatchPart(part: Part, queues: Queues, ghost pending: Queues, ghost parts: seq<Part>, ghost done: seq<Part>)
    returns (newPart: Part, queues': Queues)
    requires Done2(pending, parts, done, queues)
    ensures Done2(pending, parts + [part], done + [newPart], queues') && SamePart(part, newPart)
  {
    newPart, queues' := part, queues;
    if part.DictPart? && part.response.Some? {
      var resp := part.response.value;
      var name := NameOf(resp);
      assert Queue(queues, name) == Rest(Queue(pending, name), Idless(parts, name));
      if !Truthy(resp.id) && name in queues && queues[name] != [] {
        resp := resp.(id := Some(queues[name][0]));
        queues' := queues[name := queues[name][1..]];
      }
      newPart := part.(response := Some(resp));
    }
    Pass2One(pending, parts, part);
    assert (parts + [part])[..|parts|] == parts;
    PopFollows(queues, queues', pending, parts, part);
  }

  method MatchParts(parts: seq<Part>, queues: Queues, ghost pending: Queues, ghost before: seq<Part>,
      ghost done: seq<Part>)
    returns (newParts: seq<Part>, queues': Queues)
    requires Done2(pending, before, done, queues)
    ensures Done2(pending, before + parts, done + newParts, queues') && SameParts(parts, newParts)
  {
    newParts, queues' := [], queues;
    assert before + parts[..0] == before && done + newParts == done;
    for j := 0 to |parts|
      invariant SameParts(parts[..j], newParts)
      invariant Done2(pending, before + parts[..j], done + newParts, queues')
    {
      var newPart;
      newPart, queues' := MatchPart(parts[j], queues', pending, before + parts[..j], done + newParts);
      assert before + parts[..j] + [parts[j]] == before + parts[..j + 1];
      assert done + newParts + [newPart] == done + (newParts + [newPart]);
      newParts := newParts + [newPart];
    }
    assert parts[..|parts|] == parts;
  }

  method MatchToolResponseIds(contents: seq<Content>, pending: Queues) returns (result: seq<Content>)
    ensures Flat(result) == Pass2(pending, Flat(contents)) && SameButIds(contents, result)
  {
    result := [];
    var queues := pending;
    for i := 0 to |contents|
      invariant SameButIds(contents[..i], result)
      invariant Done2(pending, Flat(contents[..i]), Flat(result), queues)
    {
      var content := contents[i];
      assert contents[..i + 1] == contents[..i] + [content];
      if !content.Parts? {
        AddContent(contents[..i], result, content, content);
        result := result + [content];
        continue;
      }
      var newParts;
      newParts, queues := MatchParts(content.parts, queues, pending, Flat(contents[..i]), Flat(result));
      AddContent(contents[..i], result, content, content.(parts := newParts));
      result := result + [content.(parts := newParts)];
    }
    assert contents[..|contents|] == contents;
  }

  // -------------------------------------------------------------- pass 3, run

  ghost predicate Claiming(q: Queues, parts: seq<Part>)
  {
    forall name :: Queue(q, name) == ResponseIds(parts, name)
  }

  /** What the first loops of pass 3 have collected. */
  ghost predicate Collected(parts: seq<Part>, callIds: Queues, callNames: set<string>, responseIds: Queues)
  {
    Pending(callIds, parts) && callNames == AllCallIds(parts) && Claiming(responseIds, parts)
  }

  lemma ResponseFollows(parts: seq<Part>, p: Part, was: Queues, now: Queues, name: string)
    requires Queue(was, name) == ResponseIds(parts, name)
    requires now ==
      if !IsCall(p) && IsResponse(p) && Truthy(p.response.value.id)
      then was[NameOf(p.response.value) := Queue(was, NameOf(p.response.value)) + [p.response.value.id.value]] else was
    ensures Queue(now, name) == ResponseIds(parts + [p], name)
  {
    CollectOne(parts, p, name);
    assert Queue(now, name) == Queue(was, name) + ResponseIdOf(p, name);
  }

  lemma ResponsesFollow(parts: seq<Part>, p: Part, was: Queues, now: Queues)
    requires Claiming(was, parts)
    requires now ==
      if !IsCall(p) && IsResponse(p) && Truthy(p.response.value.id)
      then was[NameOf(p.response.value) := Queue(was, NameOf(p.response.value)) + [p.response.value.id.value]] else was
    ensures Claiming(now, parts + [p])
  {
    forall name ensures Queue(now, name) == ResponseIds(parts + [p], name) {
      ResponseFollows(parts, p, was, now, name);
    }
  }

  method CollectCall(part: Part, calls: Queues, names: set<string>, ghost parts: seq<Part>)
    returns (calls': Queues, names': set<string>)
    requires IsCall(part) && Pending(calls, parts) && names == AllCallIds(parts)
    ensures Pending(calls', parts + [part]) && names' == AllCallIds(parts + [part])
  {
    calls', names' := calls, names;
    var call := part.call.value;
    if Truthy(call.id) {
      calls' := calls[NameOf(call) := Queue(calls, NameOf(call)) + [call.id.value]];
      names' := names + {call.id.value};
    }
    CollectOne(parts, part, "");
    CallsFollow(parts, part, calls, calls');
  }

  method CollectResponse(part: Part, responses: Queues, ghost parts: seq<Part>) returns (responses': Queues)
    requires !IsCall(part) && IsResponse(part) && Claiming(responses, parts)
    ensures Claiming(responses', parts + [part])
  {
    responses' := responses;
    var resp := part.response.value;
    if Truthy(resp.id) {
      responses' := responses[NameOf(resp) := Queue(responses, NameOf(resp)) + [resp.id.value]];
    }
    ResponsesFollow(parts, part, responses, responses');
  }

  lemma NoCallFollows(parts: seq<Part>, p: Part, calls: Queues, names: set<string>)
    requires !IsCall(p) && Pending(calls, parts) && names == AllCallIds(parts)
    ensures Pending(calls, parts + [p]) && names == AllCallIds(parts + [p])
  {
    CollectOne(parts, p, "");
    CallsFollow(parts, p, calls, calls);
  }

  lemma NoResponseFollows(parts: seq<Part>, p: Part, responses: Queues)
    requires (IsCall(p) || !IsResponse(p)) && Claiming(responses, parts)
    ensures Claiming(responses, parts + [p])
  {
    ResponsesFollow(parts, p, responses, responses);
  }

  method CollectPart(part: Part, calls: Queues, names: set<string>, responses: Queues, ghost parts: seq<Part>)
    returns (calls': Queues, names': set<string>, responses': Queues)
    requires Collected(parts, calls, names, responses)
    ensures Collected(parts + [part], calls', names', responses')
  {
    calls', names', responses' := calls, names, responses;
    if part.DictPart? && part.call.Some? {
      calls', names' := CollectCall(part, calls, names, parts);
      NoResponseFollows(parts, part, responses);
    } else if part.DictPart? && part.response.Some? {
      responses' := CollectResponse(part, responses, parts);
      NoCallFollows(parts, part, calls, names);
    } else {
      NoCallFollows(parts, part, calls, names);
      NoResponseFollows(parts, part, responses);
    }
  }

  method CollectParts(parts: seq<Part>, calls: Queues, names: set<string>, responses: Queues, ghost before: seq<Part>)
    returns (calls': Queues, names': set<string>, responses': Queues)
    requires Collected(before, calls, names, responses)
    ensures Collected(before + parts, calls', names', responses')
  {
    calls', names', responses' := calls, names, responses;
    assert before + parts[..0] == before;
    for j := 0 to |parts|
      invariant Collected(before + parts[..j], calls', names', responses')
    {
      calls', names', responses' := CollectPart(parts[j], calls', names', responses', before + parts[..j]);
      assert before + parts[..j] + [parts[j]] == before + parts[..j + 1];
    }
    assert parts[..|parts|] == parts;
  }

  method CollectIds(contents: seq<Content>) returns (calls: Queues, names: set<string>, responses: Queues)
    ensures Collected(Flat(contents), calls, names, responses)
  {
    calls, names, responses := map[], {}, map[];
    for i := 0 to |contents|
      invariant Collected(Flat(contents[..i]), calls, names, responses)
    {
      NextContent(contents, i);
      calls, names, responses := CollectParts(PartsOf(contents[i]), calls, names, responses, Flat(contents[..i]));
    }
    assert contents[..|contents|] == contents;
  }

  /** Pass 3 so far: the first parts of all are done, and the responses claim what they
      claim by then. */
  ghost predicate Done3(all: seq<Part>, parts: seq<Part>, done: seq<Part>, responses: Queues)
  {
    RepairedSoFar(all, parts, done) && ClaimedSoFar(all, |parts|, responses)
  }

  ghost predicate RepairedSoFar(all: seq<Part>, parts: seq<Part>, done: seq<Part>)
  {
    parts <= all && |done| == |parts| && forall i :: 0 <= i < |parts| ==> done[i] == Repaired(all, i)
  }

  ghost predicate ClaimedSoFar(all: seq<Part>, k: nat, responses: Queues)
  {
    k <= |all| && forall name :: Queue(responses, name) == Claimed(all, k, name)
  }

  lemma ClaimsFollow(all: seq<Part>, k: nat, was: Queues, now: Queues)
    requires k < |all| && ClaimedSoFar(all, k, was)
    requires now ==
      var p := all[k];
      if IsOrphan(all, p) && Unclaimed(CallIds(all, NameOf(p.response.value)), Queue(was, NameOf(p.response.value))) != []
      then was[NameOf(p.response.value) := Queue(was, NameOf(p.response.value)) +
                 [Unclaimed(CallIds(all, NameOf(p.response.value)), Queue(was, NameOf(p.response.value)))[0]]]
      else was
    ensures ClaimedSoFar(all, k + 1, now)
  {
    forall name ensures Queue(now, name) == Claimed(all, k + 1, name) {
      assert Queue(was, name) == Claimed(all, k, name);
      if IsOrphan(all, all[k]) && NameOf(all[k].response.value) == name {
        ClaimFollows(all, k, was, now, name);
      }
    }
  }

  lemma ClaimFollows(all: seq<Part>, k: nat, was: Queues, now: Queues, name: string)
    requires k < |all| && IsOrphan(all, all[k]) && NameOf(all[k].response.value) == name
    requires Queue(was, name) == Claimed(all, k, name)
    requires now == if Unclaimed(CallIds(all, name), Queue(was, name)) != []
                    then was[name := Queue(was, name) + [Unclaimed(CallIds(all, name), Queue(was, name))[0]]] else was
    ensures Queue(now, name) == Claimed(all, k + 1, name)
  {
  }

  lemma RepairFollows(all: seq<Part>, parts: seq<Part>, p: Part, done: seq<Part>, q: Part)
    requires parts + [p] <= all && RepairedSoFar(all, parts, done) && q == Repaired(all, |parts|)
    ensures RepairedSoFar(all, parts + [p], done + [q])
  {
  }

  /** The repair of one part, given what has been collected and claimed. */
  method RepairOne(part: Part, calls: Queues, names: set<string>, responses: Queues, ghost all: seq<Part>, ghost k: nat)
    returns (newPart: Part, responses': Queues)
    requires k < |all| && all[k] == part && Pending(calls, all) && names == AllCallIds(all)
    requires ClaimedSoFar(all, k, responses)
    ensures newPart == Repaired(all, k) && SamePart(part, newPart)
    ensures ClaimedSoFar(all, k + 1, responses')
  {
    newPart, responses' := part, responses;
    if part.DictPart? && part.response.Some? {
      var resp := part.response.value;
      var name := NameOf(resp);
      assert Queue(calls, name) == CallIds(all, name) && Queue(responses, name) == Claimed(all, k, name);
      if Truthy(resp.id) && resp.id.value !in names {
        if name in calls && calls[name] != [] {
          var unmatched := Unclaimed(calls[name], Queue(responses, name));
          if unmatched != [] {
            resp := resp.(id := Some(unmatched[0]));
            responses' := responses[name := Queue(responses, name) + [unmatched[0]]];
          }
        }
      }
      newPart := part.(response := Some(resp));
    }
    ClaimsFollow(all, k, responses, responses');
  }

  method RepairPart(part: Part, calls: Queues, names: set<string>, responses: Queues,
                    ghost all: seq<Part>, ghost parts: seq<Part>, ghost done: seq<Part>)
    returns (newPart: Part, responses': Queues)
    requires parts + [part] <= all && Pending(calls, all) && names == AllCallIds(all)
    requires Done3(all, parts, done, responses)
    ensures Done3(all, parts + [part], done + [newPart], responses') && SamePart(part, newPart)
  {
    assert all[|parts|] == (parts + [part])[|parts|] == part;
    newPart, responses' := RepairOne(part, calls, names, responses, all, |parts|);
    RepairFollows(all, parts, part, done, newPart);
    assert |parts + [part]| == |parts| + 1;
  }

  method RepairParts(parts: seq<Part>, calls: Queues, names: set<string>, responses: Queues,
                     ghost all: seq<Part>, ghost before: seq<Part>, ghost done: seq<Part>)
    returns (newParts: seq<Part>, responses': Queues)
    requires before + parts <= all
    requires Pending(calls, all) && names == AllCallIds(all) && Done3(all, before, done, responses)
    ensures Done3(all, before + parts, done + newParts, responses') && SameParts(parts, newParts)
  {
    newParts, responses' := [], responses;
    assert before + parts[..0] == before && done + newParts == done;
    for j := 0 to |parts|
      invariant SameParts(parts[..j], newParts)
      invariant Done3(all, before + parts[..j], done + newParts, responses')
    {
      PrefixGrows(before, parts, j, all);
      var newPart;
      newPart, responses' := RepairPart(parts[j], calls, names, responses', all, before + parts[..j], done + newParts);
      assert done + newParts + [newPart] == done + (newParts + [newPart]);
      newParts := newParts + [newPart];
    }
    assert parts[..|parts|] == parts;
  }

  lemma PrefixGrows<T>(before: seq<T>, parts: seq<T>, j: nat, all: seq<T>)
    requires j < |parts| && before + parts <= all
    ensures before + parts[..j] + [parts[j]] == before + parts[..j + 1] <= all
  {
    assert before + parts == before + parts[..j + 1] + parts[j + 1..];
  }

  lemma {:induction false} FlatPrefix(cs: seq<Content>, i: nat)
    requires i <= |cs|
    ensures Flat(cs[..i]) <= Flat(cs)
    decreases |cs|
  {
    if i < |cs| {
      assert cs[..|cs| - 1][..i] == cs[..i];
      FlatPrefix(cs[..|cs| - 1], i);
    } else {
      assert cs[..i] == cs;
    }
  }

  lemma NextContent(cs: seq<Content>, i: nat)
    requires i < |cs|
    ensures Flat(cs[..i + 1]) == Flat(cs[..i]) + PartsOf(cs[i])
  {
    assert cs[..i + 1][..i] == cs[..i];
  }

  lemma NextNormal(cs: seq<Content>, i: nat)
    requires i < |cs|
    ensures Normalized(cs)[..i + 1] == Normalized(cs)[..i] + [Normal(cs[i])]
  {
  }

  /** Every content of the history has parts, or is not a dict. */
  predicate AllHaveParts(cs: seq<Content>)
  {
    forall i :: 0 <= i < |cs| ==> !cs[i].NoParts?
  }

  /** A history that is like the normal form but for ids is like the history itself exactly if
      no content lacks its parts. */
  lemma SameButIdsIff(cs: seq<Content>, ds: seq<Content>)
    requires SameButIds(Normalized(cs), ds)
    ensures SameButIds(cs, ds) <==> AllHaveParts(cs)
  {
    forall i | 0 <= i < |cs| ensures SameContent(cs[i], ds[i]) <==> !cs[i].NoParts? {
      assert SameContent(Normalized(cs)[i], ds[i]);
    }
  }

  /** content.get("parts", []): a content without parts is given an empty list. */
  method RepairContent(content: Content, calls: Queues, names: set<string>, responses: Queues,
                       ghost all: seq<Part>, ghost before: seq<Part>, ghost done: seq<Part>)
    returns (newContent: Content, responses': Queues)
    requires before + PartsOf(content) <= all
    requires Pending(calls, all) && names == AllCallIds(all) && Done3(all, before, done, responses)
    ensures Done3(all, before + PartsOf(content), done + PartsOf(newContent), responses')
    ensures SameContent(Normal(content), newContent)
  {
    if content.Raw? {
      assert before + [] == before && done + [] == done;
      return content, responses;
    }
    var newParts;
    newParts, responses' := RepairParts(PartsOf(content), calls, names, responses, all, before, done);
    newContent := Parts(newParts, content.rest);
  }

  lemma AllDone3(all: seq<Part>, done: seq<Part>, responses: Queues)
    requires Done3(all, all, done, responses)
    ensures done == Pass3(all)
  {
  }

  /** Pass 3 so far on contents. */
  ghost predicate DoneContents(contents: seq<Content>, i: nat, result: seq<Content>, responses: Queues)
  {
    && i <= |contents| && SameButIds(Normalized(contents)[..i], result)
    && Done3(Flat(contents), Flat(contents[..i]), Flat(result), responses)
  }

  lemma DoneContentsStart(contents: seq<Content>, responses: Queues)
    requires Claiming(responses, Flat(contents))
    ensures DoneContents(contents, 0, [], responses)
  {
    assert contents[..0] == [] && Normalized(contents)[..0] == [];
  }

  lemma DoneContentsNext(contents: seq<Content>, i: nat, result: seq<Content>, was: Queues, d: Content, now: Queues)
    requires i < |contents| && DoneContents(contents, i, result, was) && SameContent(Normal(contents[i]), d)
    requires Done3(Flat(contents), Flat(contents[..i]) + PartsOf(contents[i]), Flat(result) + PartsOf(d), now)
    ensures DoneContents(contents, i + 1, result + [d], now)
  {
    NextContent(contents, i);
    NextNormal(contents, i);
    AddContent(Normalized(contents)[..i], result, Normal(contents[i]), d);
  }

  lemma DoneContentsEnd(contents: seq<Content>, result: seq<Content>, responses: Queues)
    requires DoneContents(contents, |contents|, result, responses)
    ensures Flat(result) == Pass3(Flat(contents)) && SameButIds(Normalized(contents), result)
  {
    assert contents[..|contents|] == contents && Normalized(contents)[..|contents|] == Normalized(contents);
    AllDone3(Flat(contents), Flat(result), responses);
  }

  lemma ContentFits(contents: seq<Content>, i: nat)
    requires i < |contents|
    ensures Flat(contents[..i]) + PartsOf(contents[i]) <= Flat(contents)
  {
    NextContent(contents, i);
    FlatPrefix(contents, i + 1);
  }

  method FixToolResponseGrouping(contents: seq<Content>) returns (result: seq<Content>)
    ensures Flat(result) == Pass3(Flat(contents)) && SameButIds(Normalized(contents), result)
    ensures SameButIds(contents, result) <==> AllHaveParts(contents)
  {
    var calls, names, responses := CollectIds(contents);
    result := [];
    DoneContentsStart(contents, responses);
    for i := 0 to |contents|
      invariant DoneContents(contents, i, result, responses)
    {
      ContentFits(contents, i);
      ghost var was := responses;
      var newContent;
      newContent, responses :=
        RepairContent(contents[i], calls, names, responses, Flat(contents), Flat(contents[..i]), Flat(result));
      DoneContentsNext(contents, i, result, was, newContent, responses);
      result := result + [newContent];
    }
    DoneContentsEnd(contents, result, responses);
    SameButIdsIff(contents, result);
  }

  /** The whole pipeline on a list of contents; a payload without one is returned as it is. */
  function Pipeline(newId: nat -> string, parts: seq<Part>): seq<Part>
  {
    var withIds := Pass1(newId, parts);
    Pass3(PairedBy(withIds))
  }

  /** Pass 2 with the queues of pass 1. */
  function PairedBy(parts: seq<Part>): seq<Part>
  {
    seq(|parts|, k requires 0 <= k < |parts| => Paired(parts, k))
  }

  function Paired(parts: seq<Part>, k: nat): Part
    requires k < |parts|
  {
    var p := parts[k];
    if !IsResponse(p) || Truthy(p.response.value.id) then p
    else
      var ids, before := CallIds(parts, NameOf(p.response.value)), Idless(parts[..k], NameOf(p.response.value));
      if before < |ids| then WithResponseId(p, ids[before]) else p
  }

  method ApplyToolPairingFixes(contents: seq<Content>, newId: nat -> string) returns (result: seq<Content>)
    requires forall i :: newId(i) != ""
    ensures Flat(result) == Pipeline(newId, Flat(contents))
    ensures SameButIds(Normalized(contents), result)
    ensures SameButIds(contents, result) <==> AllHaveParts(contents)
  {
    var withIds, pending := AssignToolCallIds(contents, newId);
    var matched := MatchToolResponseIds(withIds, pending);
    assert Pass2(pending, Flat(withIds)) == PairedBy(Flat(withIds));
    result := FixToolResponseGrouping(matched);
    SameButIdsChains(contents, withIds, matched, result);
    SameButIdsIff(contents, result);
  }

  /** A content without parts does not come out as it went in. */
  method ContentWithoutParts(newId: nat -> string) returns (contents: seq<Content>, result: seq<Content>)
    requires forall i :: newId(i) != ""
    ensures contents == [NoParts("role: user")] && result == [Parts([], "role: user")]
    ensures !SameButIds(contents, result)
  {
    contents := [NoParts("role: user")];
    result := ApplyToolPairingFixes(contents, newId);
    assert SameContent(Normalized(contents)[0], result[0]);
  }

  lemma SameButIdsChains(a: seq<Content>, b: seq<Content>, c: seq<Content>, d: seq<Content>)
    requires SameButIds(a, b) && SameButIds(b, c) && SameButIds(Normalized(c), d)
    ensures SameButIds(Normalized(a), d)
  {
    forall i | 0 <= i < |a| ensures SameContent(Normalized(a)[i], d[i]) {
      assert SameContent(a[i], b[i]) && SameContent(b[i], c[i]) && SameContent(Normalized(c)[i], d[i]);
    }
  }
}
