/** The approval broker: koder_agent/core/queued_input.py, class ApprovalBroker. A request
    is cut at its await points: it is called, gets the lock, and resumes when its future
    is done. */
module ApprovalBroker {
  import opened Prelude

  /** A request; it creates at most one future, which bears its number. */
  type RequestId = nat

  datatype Future = Pending | Answered(answer: string) | CancelledFuture

  /** The broker's fields, and the futures it has created. */
  datatype Broker = Broker(
    active: bool, generation: nat, prompt: Option<string>, future: Option<RequestId>, futures: map<RequestId, Future>)

  predicate IsPending(b: Broker, r: RequestId)
  {
    r in b.futures && b.futures[r].Pending?
  }

  function Activated(b: Broker): Broker
  {
    b.(active := true, generation := b.generation + 1)
  }

  /** A displayed request fails closed: it is answered with nothing. */
  function Deactivated(b: Broker): Broker
  {
    b.(active := false, prompt := None, future := None,
       futures := if b.future.Some? && IsPending(b, b.future.value) then b.futures[b.future.value := Answered("")] else b.futures)
  }

  /** has_pending_request */
  predicate Displays(b: Broker)
  {
    b.prompt.Some? && b.future.Some? && IsPending(b, b.future.value)
  }

  predicate Accepts(b: Broker)
  {
    b.active && b.future.Some? && IsPending(b, b.future.value)
  }

  function Submitted(b: Broker, answer: string): Broker
  {
    if Accepts(b) then b.(futures := b.futures[b.future.value := Answered(answer)]) else b
  }

  function Displayed(b: Broker, r: RequestId, prompt: string): Broker
  {
    b.(prompt := Some(prompt), future := Some(r), futures := b.futures[r := Pending])
  }

  /** The finally block of a request. */
  function Left(b: Broker, r: RequestId): Broker
  {
    if b.future == Some(r) then b.(prompt := None, future := None) else b
  }

  class ApprovalBroker {
    var active: bool
    var activationGeneration: nat
    var prompt: Option<string>
    var answerFuture: Option<RequestId>
    var futures: map<RequestId, Future>

    ghost function State(): Broker
      reads this
    {
      Broker(active, activationGeneration, prompt, answerFuture, futures)
    }

    constructor ()
      ensures State() == Broker(false, 0, None, None, map[])
    {
      active, activationGeneration, prompt, answerFuture, futures := false, 0, None, None, map[];
    }

    /** Whether activating now would let the displayed request be answered in the new
        activation: see DisturbingCrosses. */
    method HasPendingRequest() returns (pending: bool)
      ensures pending <==> Displays(State())
    {
      return prompt.Some? && answerFuture.Some? && answerFuture.value in futures && futures[answerFuture.value].Pending?;
    }

    method Activate()
      modifies this
      ensures State() == Activated(old(State()))
    {
      activationGeneration := activationGeneration + 1;
      active := true;
    }

    method Deactivate()
      modifies this
      ensures State() == Deactivated(old(State()))
    {
      active := false;
      if answerFuture.Some? && answerFuture.value in futures && futures[answerFuture.value].Pending? {
        futures := futures[answerFuture.value := Answered("")];
      }
      prompt := None;
      answerFuture := None;
    }

    /** request, up to the wait for the lock; without an owner of the input it raises. */
    method BeginRequest() returns (generation: Option<nat>)
      ensures generation == if active then Some(activationGeneration) else None
    {
      if !active {
        return None;
      }
      return Some(activationGeneration);
    }

    /** request, from getting the lock to awaiting the answer. */
    method Display(r: RequestId, text: string, generation: nat) returns (displayed: bool)
      modifies this
      ensures displayed <==> old(active) && generation == old(activationGeneration)
      ensures State() == if displayed then Displayed(old(State()), r, text) else old(State())
    {
      if !active || generation != activationGeneration {
        return false;
      }
      futures := futures[r := Pending];
      prompt := Some(text);
      answerFuture := Some(r);
      return true;
    }

    method Leave(r: RequestId)
      modifies this
      ensures State() == Left(old(State()), r)
    {
      if answerFuture == Some(r) {
        prompt := None;
        answerFuture := None;
      }
    }

    method Submit(answer: string) returns (accepted: bool)
      modifies this
      ensures accepted <==> Accepts(old(State()))
      ensures State() == Submitted(old(State()), answer)
    {
      if !active || answerFuture.None? || !(answerFuture.value in futures && futures[answerFuture.value].Pending?) {
        return false;
      }
      futures := futures[answerFuture.value := Answered(answer)];
      return true;
    }
  }

  // ------------------------------------------------------------------------- runs

  datatype Phase = Queued | Showing | Returned(answer: string) | Gone

  datatype Task = Task(prompt: string, generation: nat, phase: Phase, cancelled: bool)

  /** An accepted answer with the prompt on display and the activation at that moment. */
  datatype Accepted = Accepted(answer: string, request: RequestId, prompt: Option<string>, generation: nat)

  datatype World = World(b: Broker, holder: Option<RequestId>, tasks: map<RequestId, Task>, log: seq<Accepted>)

  datatype Event =
    | Activate
    | Deactivate
    | Call(request: RequestId, text: string)
    | Acquire(request: RequestId)
    | Submit(answer: string)
    | Cancel(request: RequestId)
    | Resume(request: RequestId)

  const START := World(Broker(false, 0, None, None, map[]), None, map[], [])

  function CallStep(w: World, r: RequestId, text: string): World
  {
    if r in w.tasks then w
    else w.(tasks := w.tasks[r := Task(text, w.b.generation, if w.b.active then Queued else Gone, false)])
  }

  function AcquireStep(w: World, r: RequestId): World
  {
    if r !in w.tasks || !w.tasks[r].phase.Queued? || w.holder.Some? then w
    else
      var t := w.tasks[r];
      if !w.b.active || t.generation != w.b.generation then w.(tasks := w.tasks[r := t.(phase := Returned(""))])
      else w.(b := Displayed(w.b, r, t.prompt), holder := Some(r), tasks := w.tasks[r := t.(phase := Showing)])
  }

  function SubmitStep(w: World, answer: string): World
  {
    if !Accepts(w.b) then w
    else w.(b := Submitted(w.b, answer), log := w.log + [Accepted(answer, w.b.future.value, w.b.prompt, w.b.generation)])
  }

  /** Cancelling a task that awaits its future cancels the future too, unless it is done;
      either way the task will raise. */
  function CancelStep(w: World, r: RequestId): World
  {
    if r !in w.tasks then w
    else
      var t := w.tasks[r].(cancelled := true);
      match t.phase
      case Queued => w.(tasks := w.tasks[r := t.(phase := Gone)])
      case Showing =>
        w.(tasks := w.tasks[r := t],
           b := if IsPending(w.b, r) then w.b.(futures := w.b.futures[r := CancelledFuture]) else w.b)
      case _ => w
  }

  function ResumeStep(w: World, r: RequestId): World
  {
    if r !in w.tasks || !w.tasks[r].phase.Showing? || r !in w.b.futures || w.b.futures[r].Pending? then w
    else
      var t := w.tasks[r];
      var answered := w.b.futures[r].Answered? && !t.cancelled;
      w.(b := Left(w.b, r), holder := None,
         tasks := w.tasks[r := t.(phase := if answered then Returned(w.b.futures[r].answer) else Gone)])
  }

  function Step(w: World, e: Event): World
  {
    match e
    case Activate => w.(b := Activated(w.b))
    case Deactivate => w.(b := Deactivated(w.b))
    case Call(r, text) => CallStep(w, r, text)
    case Acquire(r) => AcquireStep(w, r)
    case Submit(answer) => SubmitStep(w, answer)
    case Cancel(r) => CancelStep(w, r)
    case Resume(r) => ResumeStep(w, r)
  }

  function Run(w: World, es: seq<Event>): World
    decreases es
  {
    if es == [] then w else Run(Step(w, es[0]), es[1..])
  }

  /** The input application activates the broker only while it is inactive. */
  predicate Alternating(w: World, es: seq<Event>)
    decreases es
  {
    es == [] || ((es[0].Activate? ==> !w.b.active) && Alternating(Step(w, es[0]), es[1..]))
  }

  /** The broker is never activated over a request that is still on display. */
  predicate Undisturbed(w: World, es: seq<Event>)
    decreases es
  {
    es == [] || ((es[0].Activate? ==> !Displays(w.b)) && Undisturbed(Step(w, es[0]), es[1..]))
  }

  // -------------------------------------------------------------------- invariants

  /** Only the request holding the lock is on display. */
  predicate Slot(w: World)
  {
    && (w.b.future.Some? ==>
          && w.b.future.value in w.tasks && w.b.future.value in w.b.futures
          && w.tasks[w.b.future.value].phase.Showing?
          && w.b.prompt == Some(w.tasks[w.b.future.value].prompt))
    && (w.b.future.None? ==> w.b.prompt.None?)
    && (forall r :: r in w.tasks && w.tasks[r].phase.Showing? ==>
          w.holder == Some(r) && r in w.b.futures
          && (w.b.futures[r].Pending? ==> w.b.future == Some(r) && w.b.active && !w.tasks[r].cancelled))
    && (forall r :: r in w.tasks && w.tasks[r].phase.Queued? ==> r !in w.b.futures && !w.tasks[r].cancelled)
    && (forall r :: r in w.b.futures ==> r in w.tasks)
  }

  predicate Logged(w: World, r: RequestId, answer: string)
  {
    exists i :: 0 <= i < |w.log| && w.log[i].request == r && w.log[i].answer == answer
  }

  /** An answer that is not empty was accepted for that very request. */
  predicate Sources(w: World)
  {
    forall r :: r in w.tasks ==>
      && (w.tasks[r].phase.Returned? && w.tasks[r].phase.answer != "" ==> Logged(w, r, w.tasks[r].phase.answer))
      && (w.tasks[r].phase.Showing? && r in w.b.futures && w.b.futures[r].Answered? && w.b.futures[r].answer != "" ==>
            Logged(w, r, w.b.futures[r].answer))
  }

  /** An accepted answer stays with its request. */
  predicate Carried(w: World, a: Accepted)
  {
    && a.request in w.tasks && a.request in w.b.futures
    && a.prompt == Some(w.tasks[a.request].prompt)
    && w.tasks[a.request].generation <= a.generation <= w.b.generation
    && w.b.futures[a.request] == Answered(a.answer)
    && (w.tasks[a.request].phase == Showing
        || w.tasks[a.request].phase == Returned(a.answer)
        || (w.tasks[a.request].phase == Gone && w.tasks[a.request].cancelled))
  }

  predicate Log(w: World)
  {
    && (forall i :: 0 <= i < |w.log| ==> Carried(w, w.log[i]))
    && (forall i, j :: 0 <= i < j < |w.log| ==> w.log[i].request != w.log[j].request)
    && (forall r :: r in w.tasks ==> w.tasks[r].generation <= w.b.generation)
  }

  /** What waits for an answer belongs to the current activation, as long as none disturbed it. */
  predicate Current(w: World)
  {
    && (Displays(w.b) ==> w.b.future.value in w.tasks && w.tasks[w.b.future.value].generation == w.b.generation)
    && (forall i :: 0 <= i < |w.log| && w.log[i].request in w.tasks ==>
          w.log[i].generation == w.tasks[w.log[i].request].generation)
  }

  predicate Inv(w: World)
  {
    Slot(w) && Sources(w) && Log(w)
  }

  lemma RequestKeepsSlot(w: World, r: RequestId, text: string)
    requires Slot(w)
    ensures Slot(CallStep(w, r, text)) && Slot(AcquireStep(w, r))
  {
  }

  lemma CancelKeepsSlot(w: World, r: RequestId)
    requires Slot(w)
    ensures Slot(CancelStep(w, r))
  {
  }

  lemma ResumeKeepsSlot(w: World, r: RequestId)
    requires Slot(w)
    ensures Slot(ResumeStep(w, r))
  {
  }

  lemma BrokerKeepsSlot(w: World, e: Event)
    requires Slot(w) && (e.Activate? || e.Deactivate? || e.Submit?)
    ensures Slot(Step(w, e))
  {
  }

  lemma StepKeepsSlot(w: World, e: Event)
    requires Slot(w)
    ensures Slot(Step(w, e))
  {
    match e {
      case Call(r, text) => RequestKeepsSlot(w, r, text);
      case Acquire(r) => RequestKeepsSlot(w, r, "");
      case Cancel(r) => CancelKeepsSlot(w, r);
      case Resume(r) => ResumeKeepsSlot(w, r);
      case _ => BrokerKeepsSlot(w, e);
    }
  }

  lemma LogGrows(w: World, e: Event, r: RequestId, answer: string)
    requires Logged(w, r, answer)
    ensures Logged(Step(w, e), r, answer)
  {
    var i :| 0 <= i < |w.log| && w.log[i].request == r && w.log[i].answer == answer;
    assert Step(w, e).log[i] == w.log[i];
  }

  lemma StepKeepsSources(w: World, e: Event)
    requires Slot(w) && Sources(w)
    ensures Sources(Step(w, e))
  {
    var v := Step(w, e);
    forall r | r in v.tasks
      ensures v.tasks[r].phase.Returned? && v.tasks[r].phase.answer != "" ==> Logged(v, r, v.tasks[r].phase.answer)
      ensures v.tasks[r].phase.Showing? && r in v.b.futures && v.b.futures[r].Answered? && v.b.futures[r].answer != "" ==>
                Logged(v, r, v.b.futures[r].answer)
    {
      forall answer | Logged(w, r, answer) ensures Logged(v, r, answer) {
        LogGrows(w, e, r, answer);
      }
      if e.Submit? && Accepts(w.b) && r == w.b.future.value {
        assert v.log[|w.log|].request == r && v.log[|w.log|].answer == e.answer;
      }
    }
  }

  lemma StepKeepsCarried(w: World, e: Event, a: Accepted)
    requires Slot(w) && Carried(w, a)
    ensures Carried(Step(w, e), a)
  {
  }

  lemma StepKeepsLog(w: World, e: Event)
    requires Slot(w) && Log(w)
    ensures Log(Step(w, e))
  {
    var v := Step(w, e);
    forall i | 0 <= i < |v.log| ensures Carried(v, v.log[i]) {
      if i < |w.log| {
        StepKeepsCarried(w, e, w.log[i]);
      }
    }
  }

  lemma StepKeepsCurrent(w: World, e: Event)
    requires Inv(w) && Current(w) && (e.Activate? ==> !Displays(w.b))
    ensures Current(Step(w, e))
  {
    forall i | 0 <= i < |w.log| ensures w.log[i].request in w.tasks {
      assert Carried(w, w.log[i]);
    }
  }

  lemma {:induction false} RunKeepsInv(w: World, es: seq<Event>)
    requires Inv(w)
    ensures Inv(Run(w, es))
    ensures Current(w) && Undisturbed(w, es) ==> Current(Run(w, es))
    decreases es
  {
    if es != [] {
      StepKeepsSlot(w, es[0]);
      StepKeepsSources(w, es[0]);
      StepKeepsLog(w, es[0]);
      if Current(w) && Undisturbed(w, es) {
        StepKeepsCurrent(w, es[0]);
      }
      RunKeepsInv(Step(w, es[0]), es[1..]);
    }
  }

  // ---------------------------------------------------------------------- theorems

  /** Every nonempty answer a request returns was accepted for it while its own prompt was
      on display; and in the activation that issued it, if no activation disturbed a
      request on display. */
  lemma AnswersBelong(es: seq<Event>, r: RequestId) returns (i: nat)
    requires var w := Run(START, es);
             r in w.tasks && w.tasks[r].phase.Returned? && w.tasks[r].phase.answer != ""
    ensures var w := Run(START, es);
            && i < |w.log| && w.log[i].request == r && w.log[i].answer == w.tasks[r].phase.answer
            && w.log[i].prompt == Some(w.tasks[r].prompt)
            && (Undisturbed(START, es) ==> w.log[i].generation == w.tasks[r].generation)
  {
    RunKeepsInv(START, es);
    var w := Run(START, es);
    assert Logged(w, r, w.tasks[r].phase.answer);
    i :| 0 <= i < |w.log| && w.log[i].request == r && w.log[i].answer == w.tasks[r].phase.answer;
    assert Carried(w, w.log[i]);
  }

  /** Alternating activations disturb nothing. */
  lemma {:induction false} AlternatingIsUndisturbed(w: World, es: seq<Event>)
    requires Inv(w) && Alternating(w, es)
    ensures Undisturbed(w, es)
    decreases es
  {
    if es != [] {
      StepKeepsSlot(w, es[0]);
      StepKeepsSources(w, es[0]);
      StepKeepsLog(w, es[0]);
      AlternatingIsUndisturbed(Step(w, es[0]), es[1..]);
    }
  }

  /** Conversely, in every reachable state with a request on display, one activation is
      enough: the request can be answered, and return, in an activation that did not issue
      it. */
  lemma DisturbingCrosses(es: seq<Event>, answer: string)
    requires Displays(Run(START, es).b)
    ensures var r := Run(START, es).b.future.value;
            var w := Run(START, es + [Activate, Submit(answer), Resume(r)]);
            && r in w.tasks && w.tasks[r].phase == Returned(answer)
            && |w.log| > 0 && w.log[|w.log| - 1].request == r && w.log[|w.log| - 1].answer == answer
            && w.log[|w.log| - 1].generation > w.tasks[r].generation
  {
    var w0 := Run(START, es);
    var r := w0.b.future.value;
    RunKeepsInv(START, es);
    Splits(START, es, [Activate, Submit(answer), Resume(r)]);
    var rest := [Activate, Submit(answer), Resume(r)];
    var w1 := Step(w0, Activate);
    var w2 := Step(w1, Submit(answer));
    assert rest[1..][1..][1..] == [] && rest[1..][0] == Submit(answer) && rest[1..][1..][0] == Resume(r);
    assert Run(w0, rest) == Run(w1, rest[1..]) == Run(w2, rest[1..][1..]) == Step(w2, Resume(r));
  }

  /** A request made without an active broker raises, and never shows or answers. */
  lemma UnavailableNeverAnswers(w: World, r: RequestId, text: string, es: seq<Event>)
    requires r !in w.tasks && !w.b.active
    ensures var v := Run(Step(w, Call(r, text)), es); r in v.tasks && v.tasks[r].phase.Gone?
  {
    GoneStays(Step(w, Call(r, text)), r, es);
  }

  lemma {:induction false} GoneStays(w: World, r: RequestId, es: seq<Event>)
    requires r in w.tasks && w.tasks[r].phase.Gone?
    ensures var v := Run(w, es); r in v.tasks && v.tasks[r].phase.Gone?
    decreases es
  {
    if es != [] {
      GoneStays(Step(w, es[0]), r, es[1..]);
    }
  }

  /** A request that resumes frees both the display and the lock, so that the next waiting
      request of the activation goes on display. */
  lemma ResumingMakesRoom(w: World, r: RequestId, next: RequestId)
    requires Inv(w) && r in w.tasks && w.tasks[r].phase.Showing? && r in w.b.futures && !w.b.futures[r].Pending?
    requires next in w.tasks && w.tasks[next].phase.Queued? && w.tasks[next].generation == w.b.generation
    ensures var v := Step(w, Resume(r));
            && v.holder == None && v.b.future == None && v.b.prompt == None
            && (w.b.active ==> Displays(Step(v, Acquire(next)).b)
                               && Step(v, Acquire(next)).b.prompt == Some(w.tasks[next].prompt))
  {
    assert next != r;
  }

  /** An activation expires every request that waits for the lock: it is never displayed and
      never answered. */
  lemma ActivationExpiresWaiters(w: World, r: RequestId, es: seq<Event>)
    requires Inv(w) && r in w.tasks && w.tasks[r].phase.Queued?
    ensures var v := Run(Step(w, Activate), es);
            && r in v.tasks && v.b.future != Some(r)
            && (v.tasks[r].phase.Returned? ==> v.tasks[r].phase.answer == "")
  {
    var w1 := Step(w, Activate);
    forall i | 0 <= i < |w.log| ensures w.log[i].request != r {
      assert Carried(w, w.log[i]);
    }
    StepKeepsSlot(w, Activate);
    StepKeepsSources(w, Activate);
    StepKeepsLog(w, Activate);
    StaysClosed(w1, es, r);
    RunKeepsInv(w1, es);
    forall answer ensures !Logged(Run(w1, es), r, answer) {
    }
  }

  /** No request gets two accepted answers, and an accepted answer is what its request
      returns, unless that request was cancelled before it resumed. */
  lemma AcceptedGoesToOne(es: seq<Event>, i: nat, j: nat)
    requires i < |Run(START, es).log| && j < |Run(START, es).log|
    ensures var w := Run(START, es);
            && (i != j ==> w.log[i].request != w.log[j].request)
            && w.log[i].request in w.tasks
            && var t := w.tasks[w.log[i].request];
               t.phase == Showing || t.phase == Returned(w.log[i].answer) || (t.phase == Gone && t.cancelled)
  {
    RunKeepsInv(START, es);
    assert Carried(Run(START, es), Run(START, es).log[i]);
  }

  /** Once the broker is deactivated no answer is accepted for a request issued before:
      such a request can only return what it had been given, or nothing. */
  lemma DeactivationFailsClosed(es: seq<Event>, later: seq<Event>, r: RequestId)
    requires var w := Run(START, es + [Deactivate]);
             r in w.tasks && forall i :: 0 <= i < |w.log| ==> w.log[i].request != r
    ensures var v := Run(START, es + [Deactivate] + later);
            r in v.tasks && (v.tasks[r].phase.Returned? ==> v.tasks[r].phase.answer == "")
  {
    var w := Run(START, es + [Deactivate]);
    RunKeepsInv(START, es + [Deactivate]);
    Splits(START, es + [Deactivate], later);
    Splits(START, es, [Deactivate]);
    assert !w.b.active by {
      assert [Deactivate][1..] == [];
      assert Run(Run(START, es), [Deactivate]) == Step(Run(START, es), Deactivate);
    }
    StaysClosed(w, later, r);
    RunKeepsInv(w, later);
    var v := Run(w, later);
    forall answer ensures !Logged(v, r, answer) {
    }
  }

  lemma {:induction false} Splits(w: World, a: seq<Event>, b: seq<Event>)
    ensures Run(w, a + b) == Run(Run(w, a), b)
    decreases a
  {
    if a == [] {
      assert a + b == b;
    } else {
      assert (a + b)[0] == a[0] && (a + b)[1..] == a[1..] + b;
      Splits(Step(w, a[0]), a[1..], b);
    }
  }

  /** A request that is not on display now and was issued in a past activation never gets
      an answer. */
  predicate Missed(w: World, r: RequestId)
  {
    && r in w.tasks && w.b.future != Some(r)
    && (w.b.active ==> w.tasks[r].generation < w.b.generation)
    && forall i :: 0 <= i < |w.log| ==> w.log[i].request != r
  }

  lemma MissedStep(w: World, e: Event, r: RequestId)
    requires Slot(w) && Log(w) && Missed(w, r)
    ensures Missed(Step(w, e), r)
  {
  }

  lemma {:induction false} StaysClosed(w: World, es: seq<Event>, r: RequestId)
    requires Inv(w) && Missed(w, r)
    ensures Missed(Run(w, es), r)
    decreases es
  {
    if es != [] {
      StepKeepsSlot(w, es[0]);
      StepKeepsSources(w, es[0]);
      StepKeepsLog(w, es[0]);
      MissedStep(w, es[0], r);
      StaysClosed(Step(w, es[0]), es[1..], r);
    }
  }

  /** Activating twice breaks this: the request of the first activation is answered in the
      second. */
  lemma DoubleActivationCrosses() returns (es: seq<Event>)
    ensures var w := Run(START, es);
            && 0 in w.tasks && w.tasks[0].phase == Returned("y")
            && |w.log| == 1 && w.log[0].request == 0 && w.log[0].generation != w.tasks[0].generation
  {
    es := [Activate, Call(0, "ok?"), Acquire(0), Activate, Submit("y"), Resume(0)];
    var w1 := Step(START, es[0]);
    var w2 := Step(w1, es[1]);
    var w3 := Step(w2, es[2]);
    var w4 := Step(w3, es[3]);
    var w5 := Step(w4, es[4]);
    var w6 := Step(w5, es[5]);
    assert es[1..][1..][1..][1..][1..][1..] == [];
    assert es[1..][0] == es[1] && es[1..][1..][0] == es[2] && es[1..][1..][1..][0] == es[3];
    assert es[1..][1..][1..][1..][0] == es[4] && es[1..][1..][1..][1..][1..][0] == es[5];
    assert Run(START, es) == Run(w1, es[1..]) == Run(w2, es[1..][1..]) == Run(w3, es[1..][1..][1..]);
    assert Run(w3, es[1..][1..][1..]) == Run(w4, es[1..][1..][1..][1..]) == Run(w5, es[1..][1..][1..][1..][1..]);
    assert Run(START, es) == w6;
  }

  // ------------------------------------------------------- what a request returns

  /** With an active broker and the lock free, a new request goes on display with its text,
      and is pending. */
  lemma RequestShows(w: World, r: RequestId, text: string)
    requires w.b.active && w.holder.None? && r !in w.tasks
    ensures var v := Step(Step(w, Call(r, text)), Acquire(r));
            && v.b.prompt == Some(text) && v.b.future == Some(r) && v.holder == Some(r) && Accepts(v.b)
            && v.tasks[r] == Task(text, w.b.generation, Showing, false)
  {
  }

  /** One whose activation is over by the time it gets the lock returns nothing, without
      touching the display or keeping the lock. */
  lemma LateRequestReturnsNothing(w: World, r: RequestId)
    requires r in w.tasks && w.tasks[r].phase.Queued? && w.holder.None?
    requires !w.b.active || w.tasks[r].generation != w.b.generation
    ensures var v := Step(w, Acquire(r));
            r in v.tasks && v.tasks[r].phase == Returned("") && v.b == w.b && v.holder.None?
  {
  }

  /** The request is answered, and waits for its turn to return the answer. */
  predicate Answering(w: World, r: RequestId, answer: string)
  {
    && r in w.tasks && w.tasks[r].phase.Showing? && !w.tasks[r].cancelled
    && r in w.b.futures && w.b.futures[r] == Answered(answer)
  }

  lemma {:induction false} AnsweringStays(w: World, r: RequestId, answer: string, es: seq<Event>)
    requires Slot(w) && Answering(w, r, answer) && Cancel(r) !in es && Resume(r) !in es
    ensures Answering(Run(w, es), r, answer)
    decreases es
  {
    if es != [] {
      assert es[0] != Cancel(r) && es[0] != Resume(r);
      StepKeepsSlot(w, es[0]);
      AnsweringStays(Step(w, es[0]), r, answer, es[1..]);
    }
  }

  /** From every reachable state: an answer given to the request on display is what that
      request returns when it resumes, whatever happens in between, unless it is cancelled
      before; a deactivation answers it with nothing in the same way. */
  lemma AnswerComesBack(before: seq<Event>, given: Event, es: seq<Event>, r: RequestId)
    requires var w := Run(START, before); w.b.active && w.b.future == Some(r) && IsPending(w.b, r)
    requires given.Submit? || given.Deactivate?
    requires Cancel(r) !in es && Resume(r) !in es
    ensures var w := Run(START, before);
            var v := Step(Run(Step(w, given), es), Resume(r));
            r in v.tasks && v.tasks[r].phase == Returned(if given.Submit? then given.answer else "")
  {
    var w := Run(START, before);
    RunKeepsInv(START, before);
    StepKeepsSlot(w, given);
    AnsweringStays(Step(w, given), r, if given.Submit? then given.answer else "", es);
  }

  /** A request that is cancelled while it waits or is on display never returns. */
  lemma CancelledNeverReturns(w: World, r: RequestId, es: seq<Event>)
    requires r in w.tasks && (w.tasks[r].phase.Queued? || w.tasks[r].phase.Showing?)
    ensures var v := Run(Step(w, Cancel(r)), es); r in v.tasks && !v.tasks[r].phase.Returned?
  {
    CancelledStays(Step(w, Cancel(r)), r, es);
  }

  lemma {:induction false} CancelledStays(w: World, r: RequestId, es: seq<Event>)
    requires r in w.tasks && w.tasks[r].cancelled && (w.tasks[r].phase.Showing? || w.tasks[r].phase.Gone?)
    ensures var v := Run(w, es); r in v.tasks && !v.tasks[r].phase.Returned?
    decreases es
  {
    if es != [] {
      CancelledStays(Step(w, es[0]), r, es[1..]);
    }
  }
}
