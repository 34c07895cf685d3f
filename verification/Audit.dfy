/** The audit protocol around a call: what a guarded call writes, asks and runs, and how the
    proxy ends the record of a call whose answer is still being read. */
module Audit {
  import opened Optional
  import Whitespace

  /** Something thrown, by what it says of itself. Putting it into words can throw in its
      turn, as it does for an object without a prototype: such a fault is mute. */
  datatype Fault = Says(message: string) | Mute
  datatype Outcome<T> = Returned(value: T) | Threw(error: Fault)

  datatype Phase = Attempt | Refused | Success | Failure
  /** An event of one call; every event of a call carries the call's id. */
  datatype Event = Event(call: int, resource: Option<string>, phase: Phase, approvedBy: Option<string>,
                         error: Option<string>)

  predicate Terminal(e: Event) {
    e.phase != Attempt
  }

  /** What a call did, in order. A written event is one handed to the sink, with the error
      the sink threw, if it did; a reported one is handed to the error listener, likewise. */
  datatype Effect =
    | Wrote(event: Event, rejected: Option<Fault>)
    | Reported(event: Event, again: Option<Fault>)
    | Asked
    | Ran

  function Written(trace: seq<Effect>): seq<Event> {
    if trace == [] then [] else (if trace[0].Wrote? then [trace[0].event] else []) + Written(trace[1..])
  }

  lemma {:induction false} WrittenAppend(a: seq<Effect>, b: seq<Effect>)
    ensures Written(a + b) == Written(a) + Written(b)
  {
    if a == [] {
      assert a + b == b;
    } else {
      WrittenAppend(a[1..], b);
      assert (a + b)[1..] == a[1..] + b;
    }
  }

  lemma OneWritten(e: Effect)
    ensures Written([e]) == if e.Wrote? then [e.event] else []
  {
    assert [e][1..] == [];
    assert Written([]) == [];
  }

  // ---- A guarded call ----

  /** What an approver says: nothing at all, or whether it approved, in whose name, and why
      not. A name that is not a string counts as none. */
  datatype Answer = Nothing | Decision(approved: bool, who: Option<string>, reason: Option<string>)
  datatype Approval = Answered(answer: Answer) | Failed(error: Fault) | Expired(message: string)

  /** Everything outside the call: the sink and the listener for its errors, each with the
      error it throws at an event, if any; whether this call asks, what it touches, what the
      approver does, and what the handler does. */
  datatype World<T> = World(sink: Option<Event -> Option<Fault>>, listener: Option<Event -> Option<Fault>>,
                            asking: Outcome<bool>, resource: Outcome<Option<string>>, approver: Approval,
                            handler: Outcome<T>)

  /** What a call can throw: a fault from outside, its own refusal, or the platform's error
      at reading an answer that is no object or at putting a mute fault into words. */
  datatype Error = Thrown(error: Fault) | ApprovalRefused(reason: string, who: Option<string>) | NotAnObject | Unsayable
  datatype Result<T> = Done(value: T) | Rejected(error: Error)

  // ---- What awaiting, throwing and catching mean ----

  /** What a piece of a call does, and how it ends. */
  datatype Step<T> = Step(trace: seq<Effect>, result: Result<T>)

  /** One piece after another: what the first throws, the whole throws. */
  function Then<A, B>(first: Step<A>, next: A -> Step<B>): Step<B> {
    match first.result
    case Done(value) => Step(first.trace + next(value).trace, next(value).result)
    case Rejected(error) => Step(first.trace, Rejected(error))
  }

  /** A `try`: what the first throws, the handler catches. */
  function Try<A>(first: Step<A>, handle: Error -> Step<A>): Step<A> {
    match first.result
    case Done(_) => first
    case Rejected(error) => Step(first.trace + handle(error).trace, handle(error).result)
  }

  function Thrower(error: Option<Fault>): Result<()> {
    if error.Some? then Rejected(Thrown(error.value)) else Done(())
  }

  function Tell<T>(w: World<T>, event: Event): Step<()> {
    if w.sink.None? then Step([], Done(())) else Step([Wrote(event, w.sink.value(event))], Thrower(w.sink.value(event)))
  }

  function Complain<T>(w: World<T>, event: Event): Step<()> {
    if w.listener.None? then Step([], Done(()))
    else Step([Reported(event, w.listener.value(event))], Thrower(w.listener.value(event)))
  }

  /** Delivering a terminal event, with its two nested catches. */
  function Delivery<T>(w: World<T>, event: Event): Step<()> {
    Try(Tell(w, event), error => Try(Complain(w, event), again => Step([], Done(()))))
  }

  /** What an error says of itself, if it can be put into words. */
  function MessageOf(error: Error): Option<string> {
    match error
    case Thrown(fault) => WordsOf(fault)
    case ApprovalRefused(reason, _) => Some(reason)
    case NotAnObject => Some("not an object")
    case Unsayable => Some("no primitive value")
  }

  function WordsOf(fault: Fault): Option<string> {
    if fault.Says? then Some(fault.message) else None
  }

  /** The handler and the success event in one `try`: its catch would see either throw. */
  function Attempted<T>(w: World<T>, call: int, resource: Option<string>, who: Option<string>): Step<T> {
    Try(
      Then(Step([Ran], ResultOf(w.handler)), value =>
        Then(Delivery(w, Event(call, resource, Success, who, None)), done => Step([], Done(value)))),
      error =>
        if MessageOf(error).None? then Step([], Rejected(Unsayable))
        else Then(Delivery(w, Event(call, resource, Failure, who, MessageOf(error))), done => Step([], Rejected(error))))
  }

  /** A refusal: recorded, and then thrown. */
  function RefusedWith<T>(w: World<T>, event: Event, error: Error): Step<Option<string>> {
    Then(Delivery(w, event), done => Step([], Rejected(error)))
  }

  /** Waiting for a person: an approver that fails or is late has refused, unless its failure
      cannot be given as the reason. */
  function DecideWithin(approver: Approval): Result<Answer> {
    match approver
    case Answered(answer) => Done(answer)
    case Failed(fault) =>
      if WordsOf(fault).None? then Rejected(Unsayable) else Done(Decision(false, None, WordsOf(fault)))
    case Expired(message) => Done(Decision(false, None, Some(message)))
  }

  predicate Named(who: Option<string>) {
    who.Some? && !Whitespace.AllSpace(who.value)
  }

  /** An approval that lets the handler run: given, in somebody's name. */
  predicate Consent(a: Result<Answer>) {
    a.Done? && a.value.Decision? && a.value.approved && Named(a.value.who)
  }

  predicate Asks<T>(w: World<T>) {
    w.asking == Returned(true)
  }

  function Or(reason: Option<string>, otherwise: string): string {
    if reason.Some? then reason.value else otherwise
  }

  /** The attempt was recorded, or there is nowhere to record it. */
  predicate Recorded<T>(w: World<T>, call: int) {
    && w.asking.Returned?
    && (w.sink.Some? || Asks(w) ==> w.resource.Returned?)
    && (w.sink.Some? ==> w.sink.value(Event(call, w.resource.value, Attempt, None, None)) == None)
  }

  /** A call runs its handler exactly when its attempt was recorded and, if it asks, somebody
      approved in their own name. */
  predicate Runs<T>(w: World<T>, call: int) {
    Recorded(w, call) && (Asks(w) ==> Consent(DecideWithin(w.approver)))
  }

  /** The error an asked call dies of when the approver gave no decision that can be read. */
  function NoDecision<T>(w: World<T>): Option<Error> {
    if !Asks(w) then None
    else
      match DecideWithin(w.approver)
      case Rejected(error) => Some(error)
      case Done(Nothing) => Some(NotAnObject)
      case Done(Decision(_, _, _)) => None
  }

  /** A call that starts and never ends in the log: no decision can be read, or the handler
      runs and throws what cannot be put into words. */
  predicate Unended<T>(w: World<T>, call: int) {
    NoDecision(w).Some? || (Runs(w, call) && w.handler == Threw(Mute))
  }

  /** How a call that runs its handler ends in the log. */
  function HandlerEnding<T>(w: World<T>, call: int, resource: Option<string>, who: Option<string>): Event {
    match w.handler
    case Returned(_) => Event(call, resource, Success, who, None)
    case Threw(fault) => Event(call, resource, Failure, who, WordsOf(fault))
  }

  /** What a call that runs its handler answers: as the handler, unless it threw what cannot
      be put into words. */
  function HandlerResult<T>(w: World<T>): Result<T> {
    if w.handler == Threw(Mute) then Rejected(Unsayable) else ResultOf(w.handler)
  }

  /** In whose name the handler runs. */
  function Approver<T>(w: World<T>): Option<string> {
    var said := DecideWithin(w.approver);
    if Asks(w) && said.Done? && said.value.Decision? then said.value.who else None
  }

  /** How a recorded call must end in the log. */
  function Ending<T>(w: World<T>, call: int): Event
    requires Recorded(w, call) && !Unended(w, call) && w.resource.Returned?
  {
    if Runs(w, call) then HandlerEnding(w, call, w.resource.value, Approver(w))
    else
      var said := DecideWithin(w.approver).value;
      if said.approved then
        Event(call, w.resource.value, Refused, None, Some("approval did not name who gave it"))
      else
        Event(call, w.resource.value, Refused, said.who, Some(Or(said.reason, "refused")))
  }

  /** What delivering a terminal event does: it is written, and reported if that threw. */
  function Recording<T>(w: World<T>, event: Event): seq<Effect> {
    if w.sink.None? then []
    else
      var rejected := w.sink.value(event);
      [Wrote(event, rejected)]
      + if rejected.Some? && w.listener.Some? then [Reported(event, w.listener.value(event))] else []
  }

  function AttemptOf<T>(w: World<T>, call: int): Event
    requires w.resource.Returned?
  {
    Event(call, w.resource.value, Attempt, None, None)
  }

  function ResultOf<T>(o: Outcome<T>): Result<T> {
    match o
    case Returned(value) => Done(value)
    case Threw(fault) => Rejected(Thrown(fault))
  }

  function Opening<T>(w: World<T>, call: int): seq<Effect>
    requires w.resource.Returned?
  {
    if w.sink.None? then [] else [Wrote(AttemptOf(w, call), w.sink.value(AttemptOf(w, call)))]
  }

  function Question<T>(w: World<T>): seq<Effect> {
    if Asks(w) then [Asked] else []
  }

  /** Once recorded and asked: the handler, if it may run, and the ending. */
  function Closing<T>(w: World<T>, call: int): seq<Effect>
    requires Recorded(w, call) && w.resource.Returned?
  {
    (if Runs(w, call) then [Ran] else []) + (if Unended(w, call) then [] else Recording(w, Ending(w, call)))
  }

  /** The whole of a call's effects: its attempt, its question, its handler, its ending. */
  function TraceOf<T>(w: World<T>, call: int): seq<Effect> {
    if w.asking.Threw? then []
    else if w.sink.None? && !Asks(w) then [Ran]
    else if w.resource.Threw? then []
    else if !Recorded(w, call) then Opening(w, call)
    else Opening(w, call) + (Question(w) + Closing(w, call))
  }

  /** What a call answers: the handler's outcome if it ran, and otherwise why it did not. A
      call that is neither recorded nor asked is the handler alone. */
  function AnswerOf<T>(w: World<T>, call: int): Result<T> {
    if w.asking.Threw? then Rejected(Thrown(w.asking.error))
    else if w.sink.None? && !Asks(w) then ResultOf(w.handler)
    else if Runs(w, call) then HandlerResult(w)
    else if w.resource.Threw? then Rejected(Thrown(w.resource.error))
    else if !Recorded(w, call) then
      assert w.sink.value(AttemptOf(w, call)).Some?;
      Rejected(Thrown(w.sink.value(AttemptOf(w, call)).value))
    else if NoDecision(w).Some? then Rejected(NoDecision(w).value)
    else Rejected(ApprovalRefused(Ending(w, call).error.value, Ending(w, call).approvedBy))
  }

  /** Whatever the sink and its listener throw, delivering a terminal event returns. */
  lemma DeliveryReturns<T>(w: World<T>, event: Event)
    ensures Delivery(w, event) == Step(Recording(w, event), Done(()))
  {
    var told, complained := Tell(w, event), Complain(w, event);
    if told.result.Rejected? {
      assert Try(complained, again => Step([], Done(()))) == Step(complained.trace, Done(())) by {
        assert complained.trace + [] == complained.trace;
      }
    }
  }

  /** So the success event, though inside the `try`, never reaches its catch: the call ends
      once, as the handler did, unless what the handler threw cannot be put into words. */
  lemma AttemptedEndsOnce<T>(w: World<T>, call: int, resource: Option<string>, who: Option<string>)
    ensures Attempted(w, call, resource, who)
            == Step([Ran] + (if w.handler == Threw(Mute) then [] else Recording(w, HandlerEnding(w, call, resource, who))),
                    HandlerResult(w))
  {
    var event := HandlerEnding(w, call, resource, who);
    DeliveryReturns(w, event);
    hide Delivery, Recording;
    assert Recording(w, event) + [] == Recording(w, event);
  }

  lemma RefusedThrows<T>(w: World<T>, event: Event, error: Error)
    ensures RefusedWith(w, event, error) == Step(Recording(w, event), Rejected(error))
  {
    DeliveryReturns(w, event);
    hide Delivery, Recording;
    assert Recording(w, event) + [] == Recording(w, event);
  }

  method DeliverTerminal<T>(w: World<T>, event: Event) returns (effects: seq<Effect>, result: Result<()>)
    ensures Step(effects, result) == Delivery(w, event)
  {
    effects, result := [], Done(());
    if w.sink.Some? {
      var rejected := w.sink.value(event);
      effects := [Wrote(event, rejected)];
      result := Thrower(rejected);
    }
    // catch: the listener hears of it.
    if result.Rejected? {
      result := Done(());
      if w.listener.Some? {
        var again := w.listener.value(event);
        effects := effects + [Reported(event, again)];
        result := Thrower(again);
      }
      // catch: nobody is left to tell.
      if result.Rejected? { result := Done(()); }
      assert effects + [] == effects;
    }
  }

  method RunAndEnd<T>(w: World<T>, call: int, resource: Option<string>, approvedBy: Option<string>)
      returns (effects: seq<Effect>, result: Result<T>)
    ensures Step(effects, result) == Attempted(w, call, resource, approvedBy)
  {
    hide Delivery, MessageOf;
    result := ResultOf(w.handler);
    effects := [Ran];
    if result.Done? {
      var written, delivered := DeliverTerminal(w, Event(call, resource, Success, approvedBy, None));
      effects := effects + written;
      assert written + [] == written;
      match delivered {
        case Done(_) => return;
        case Rejected(error) => result := Rejected(error);
      }
    }
    // catch: the handler's error, or the success event's.
    match result {
      case Done(_) =>
      case Rejected(error) =>
        var words := MessageOf(error);
        if words.None? { return effects, Rejected(Unsayable); }
        var written, delivered := DeliverTerminal(w, Event(call, resource, Failure, approvedBy, words));
        effects := effects + written;
        assert written + [] == written;
        match delivered {
          case Done(_) =>
          case Rejected(again) => result := Rejected(again);
        }
    }
  }

  /** Recording a refusal and throwing it. */
  method Refuse<T>(w: World<T>, event: Event, error: Error) returns (effects: seq<Effect>, thrown: Error)
    ensures Step(effects, Rejected(thrown)) == RefusedWith(w, event, error)
  {
    hide Delivery;
    var delivered;
    effects, delivered := DeliverTerminal(w, event);
    assert effects + [] == effects;
    match delivered {
      case Done(_) => thrown := error;
      case Rejected(other) => thrown := other;
    }
  }

  /** Waiting for consent: the refusal, recorded, when there is none. */
  method Ask<T>(w: World<T>, call: int, resource: Option<string>)
      returns (effects: seq<Effect>, refusal: Option<Error>, approvedBy: Option<string>)
    requires Recorded(w, call) && Asks(w) && w.resource == Returned(resource)
    ensures refusal.None? <==> Runs(w, call)
    ensures refusal.None? ==> effects == Question(w) && approvedBy == Approver(w)
    ensures refusal.Some? ==> effects == Question(w) + Closing(w, call) && Rejected(refusal.value) == AnswerOf(w, call)
  {
    hide Recorded, Delivery, Recording, DecideWithin, Named, RefusedWith;
    effects := [Asked];
    var waited := DecideWithin(w.approver);
    if waited.Rejected? { return effects, Some(waited.error), None; }
    var decision := waited.value;
    if decision == Nothing { return effects, Some(NotAnObject), None; }
    if decision.approved && !Named(decision.who) {
      var reason := "approval did not name who gave it";
      var event := Event(call, resource, Refused, None, Some(reason));
      var written, thrown := Refuse(w, event, ApprovalRefused(reason, None));
      RefusedThrows(w, event, ApprovalRefused(reason, None));
      return effects + written, Some(thrown), None;
    }
    if !decision.approved {
      var reason := Or(decision.reason, "refused");
      var event := Event(call, resource, Refused, decision.who, Some(reason));
      var written, thrown := Refuse(w, event, ApprovalRefused(reason, decision.who));
      RefusedThrows(w, event, ApprovalRefused(reason, decision.who));
      return effects + written, Some(thrown), None;
    }
    return effects, None, decision.who;
  }

  lemma RunsCloses<T>(w: World<T>, call: int)
    requires Runs(w, call) && w.resource.Returned?
    ensures Closing(w, call)
            == [Ran] + if w.handler == Threw(Mute) then [] else Recording(w, HandlerEnding(w, call, w.resource.value, Approver(w)))
  {
    hide Recorded, Recording, Asks, HandlerEnding, DecideWithin;
  }

  /** A guarded call does what its attempt, its question, its handler and its one ending do,
      and answers as its handler does, whatever the sink and its listener throw at an ending. */
  method Guard<T>(w: World<T>, call: int) returns (trace: seq<Effect>, result: Result<T>)
    ensures trace == TraceOf(w, call)
    ensures result == AnswerOf(w, call)
  {
    hide Closing, DecideWithin, Consent, Ending, Attempted, Recording, HandlerEnding;
    if w.asking.Threw? { return [], Rejected(Thrown(w.asking.error)); }
    var asking := w.asking.value;
    if w.sink.None? && !asking { return [Ran], ResultOf(w.handler); }
    if w.resource.Threw? { return [], Rejected(Thrown(w.resource.error)); }
    var resource := w.resource.value;
    trace := [];
    if w.sink.Some? {
      var attempt := Event(call, resource, Attempt, None, None);
      var rejected := w.sink.value(attempt);
      trace := [Wrote(attempt, rejected)];
      if rejected.Some? { return trace, Rejected(Thrown(rejected.value)); }
    }
    assert trace == Opening(w, call);
    var approvedBy: Option<string> := None;
    var asked: seq<Effect> := [];
    if asking {
      var refusal;
      asked, refusal, approvedBy := Ask(w, call, resource);
      if refusal.Some? { return trace + asked, Rejected(refusal.value); }
    }
    var ran;
    ran, result := RunAndEnd(w, call, resource, approvedBy);
    AttemptedEndsOnce(w, call, resource, approvedBy);
    RunsCloses(w, call);
    trace := trace + (asked + ran);
  }

  // ---- What the log can be trusted for ----

  function Rank(e: Effect): nat {
    match e
    case Wrote(event, _) => if Terminal(event) then 3 else 0
    case Asked => 1
    case Ran => 2
    case Reported(_, _) => 4
  }

  /** The attempt, the question, the handler, the ending, the report of a lost ending: each at
      most once, and in that order. */
  predicate InOrder(trace: seq<Effect>) {
    forall i, j | 0 <= i < j < |trace| :: Rank(trace[i]) < Rank(trace[j])
  }

  predicate Within(trace: seq<Effect>, low: nat, high: nat) {
    InOrder(trace) && forall e | e in trace :: low <= Rank(e) < high
  }

  lemma InOrderAppend(a: seq<Effect>, b: seq<Effect>, low: nat, middle: nat, high: nat)
    requires Within(a, low, middle) && Within(b, middle, high) && low <= middle <= high
    ensures Within(a + b, low, high)
  {
    hide Rank;
  }

  lemma RecordingIs<T>(w: World<T>, event: Event)
    requires Terminal(event)
    ensures Within(Recording(w, event), 3, 5)
    ensures Written(Recording(w, event)) == if w.sink.Some? then [event] else []
    ensures Ran !in Recording(w, event) && Asked !in Recording(w, event)
    ensures forall e, again :: Reported(e, again) in Recording(w, event) <==> Hears(w, e, again) && e == event
  {
    if w.sink.Some? {
      var wrote := Wrote(event, w.sink.value(event));
      OneWritten(wrote);
      if w.listener.Some? {
        var reported := Reported(event, w.listener.value(event));
        OneWritten(reported);
        WrittenAppend([wrote], [reported]);
      }
    }
  }

  /** The sink throws at this event, and the listener hears of it. */
  predicate Hears<T>(w: World<T>, event: Event, again: Option<Fault>) {
    w.sink.Some? && w.sink.value(event).Some? && w.listener.Some? && again == w.listener.value(event)
  }

  lemma EndingIsTerminal<T>(w: World<T>, call: int)
    requires Recorded(w, call) && w.resource.Returned? && !Unended(w, call)
    ensures Terminal(Ending(w, call))
  {}

  lemma ClosingIs<T>(w: World<T>, call: int)
    requires Recorded(w, call) && w.resource.Returned?
    ensures Within(Closing(w, call), 2, 5)
    ensures Written(Closing(w, call)) == if w.sink.None? || Unended(w, call) then [] else [Ending(w, call)]
    ensures Asked !in Closing(w, call) && (Ran in Closing(w, call) <==> Runs(w, call))
    ensures forall e, again :: Reported(e, again) in Closing(w, call)
                               <==> !Unended(w, call) && e == Ending(w, call) && Hears(w, e, again)
  {
    hide Recorded, Recording, Ending, Asks, Hears, Runs, Unended;
    var ran: seq<Effect> := if Runs(w, call) then [Ran] else [];
    OneWritten(Ran);
    assert Written([]) == [] && Within(ran, 2, 3) && Within([], 3, 5);
    if Unended(w, call) {
      InOrderAppend(ran, [], 2, 3, 5);
      WrittenAppend(ran, []);
    } else {
      EndingIsTerminal(w, call);
      RecordingIs(w, Ending(w, call));
      WrittenAppend(ran, Recording(w, Ending(w, call)));
      InOrderAppend(ran, Recording(w, Ending(w, call)), 2, 3, 5);
    }
  }

  /** What the log holds of a call: with a sink, its attempt; and once that was taken, exactly
      one ending, unless no decision can be read or the handler throws a mute fault. */
  lemma WrittenIs<T>(w: World<T>, call: int)
    requires w.sink.Some? && w.asking.Returned? && w.resource.Returned?
    ensures Written(TraceOf(w, call))
            == [AttemptOf(w, call)] + if !Recorded(w, call) || Unended(w, call) then [] else [Ending(w, call)]
    ensures Recorded(w, call) && !Unended(w, call) ==> Terminal(Ending(w, call))
  {
    hide Closing, Ending, Recorded;
    OneWritten(Opening(w, call)[0]);
    if Recorded(w, call) {
      ClosingIs(w, call);
      OneWritten(Asked);
      WrittenAppend(Question(w), Closing(w, call));
      WrittenAppend(Opening(w, call), Question(w) + Closing(w, call));
      if !Unended(w, call) { EndingIsTerminal(w, call); }
    }
  }

  /** An approver's answer that lets the handler run, and the name on it: approval in a name
      that holds more than whitespace. One that failed or came late gives none. */
  predicate ApprovedBy(approver: Approval, who: string) {
    approver.Answered? && approver.answer.Decision? && approver.answer.approved && approver.answer.who == Some(who)
    && exists c | c in who :: !Whitespace.IsSpace(c)
  }

  /** What the last event of a call says: that it succeeded exactly when the handler ran and
      returned, that it failed exactly when the handler ran and threw, in the name of whoever
      approved; otherwise that it was refused, and in nobody's name but a refuser's. */
  lemma EndingSays<T>(w: World<T>, call: int)
    requires w.sink.Some? && w.asking.Returned? && w.resource.Returned? && Recorded(w, call) && !Unended(w, call)
    ensures var written := Written(TraceOf(w, call));
            && |written| == 2 && written[0].phase == Attempt
            && (written[1].phase == Success <==> Ran in TraceOf(w, call) && w.handler.Returned?)
            && (written[1].phase == Failure <==> Ran in TraceOf(w, call) && w.handler.Threw?)
            && (written[1].phase == Refused <==> Ran !in TraceOf(w, call))
            && (written[1].phase == Failure ==> w.handler.error.Says? && written[1].error == Some(w.handler.error.message))
            && (written[1].phase == Refused ==>
                  match w.approver
                  case Failed(Says(message)) => written[1].error == Some(message)
                  case Expired(message) => written[1].error == Some(message)
                  case Answered(Decision(false, who, Some(reason))) => written[1].error == Some(reason) && written[1].approvedBy == who
                  case _ => written[1].error.Some?)
            && (Ran in TraceOf(w, call) && w.asking.value ==>
                  written[1].approvedBy.Some? && ApprovedBy(w.approver, written[1].approvedBy.value))
            && (Ran !in TraceOf(w, call) ==> w.asking.value && forall who :: !ApprovedBy(w.approver, who))
  {
    hide Closing, TraceOf, Written;
    WrittenIs(w, call);
    HandlerRunsOnceAfterConsent(w, call);
    ConsentIs(w.approver);
    if Ran in TraceOf(w, call) && Asks(w) { assert ApprovedBy(w.approver, Approver(w).value); }
  }

  lemma ConsentIs(approver: Approval)
    ensures Consent(DecideWithin(approver)) <==> approver.Answered? && approver.answer.Decision?
                                                 && approver.answer.who.Some? && ApprovedBy(approver, approver.answer.who.value)
    ensures forall who :: ApprovedBy(approver, who) ==> Consent(DecideWithin(approver)) && approver.answer.who == Some(who)
  {}

  /** Such calls exist: the handler throws a mute fault, or the approver does, or the approver
      answers with nothing. Each was recorded, and its error is the platform's own. */
  lemma SomeCallsNeverEnd<T>(call: int, value: T)
    ensures var sink := Some((e: Event) => None);
            var muted := World(sink, None, Returned(false), Returned(None), Answered(Nothing), Outcome<T>.Threw(Mute));
            var failed := World(sink, None, Returned(true), Returned(None), Failed(Mute), Returned(value));
            var silent := World(sink, None, Returned(true), Returned(None), Answered(Nothing), Returned(value));
            && Written(TraceOf(muted, call)) == Written(TraceOf(failed, call)) == Written(TraceOf(silent, call))
               == [Event(call, None, Attempt, None, None)]
            && AnswerOf(muted, call) == AnswerOf(failed, call) == Rejected(Unsayable)
            && AnswerOf(silent, call) == Rejected(NotAnObject)
  {
    var sink := Some((e: Event) => None);
    var muted := World(sink, None, Returned(false), Returned(None), Answered(Nothing), Outcome<T>.Threw(Mute));
    var failed := World(sink, None, Returned(true), Returned(None), Failed(Mute), Returned(value));
    var silent := World(sink, None, Returned(true), Returned(None), Answered(Nothing), Returned(value));
    WrittenIs(muted, call);
    WrittenIs(failed, call);
    WrittenIs(silent, call);
    hide TraceOf, Written, Ending;
  }

  /** The handler runs at most once, exactly when the attempt was recorded and any question
      was answered with consent; the question is asked at most once, and only of a recorded
      call; each comes after the attempt and before the ending. */
  lemma HandlerRunsOnceAfterConsent<T>(w: World<T>, call: int)
    ensures Ran in TraceOf(w, call) <==> Runs(w, call)
    ensures Asked in TraceOf(w, call) <==> Recorded(w, call) && Asks(w)
    ensures InOrder(TraceOf(w, call))
  {
    hide Closing, Consent;
    if w.asking.Returned? && w.resource.Returned? && (w.sink.Some? || Asks(w)) && Recorded(w, call) {
      ClosingIs(w, call);
      InOrderAppend(Question(w), Closing(w, call), 1, 2, 5);
      InOrderAppend(Opening(w, call), Question(w) + Closing(w, call), 0, 1, 5);
    }
  }

  /** A rejected ending is reported to whoever hears, and nothing else is. */
  lemma ReportedIs<T>(w: World<T>, call: int, e: Event, again: Option<Fault>)
    ensures Reported(e, again) in TraceOf(w, call)
            <==> Hears(w, e, again) && Recorded(w, call) && !Unended(w, call) && e == Ending(w, call)
  {
    hide Closing, Consent;
    if w.asking.Returned? && w.resource.Returned? && (w.sink.Some? || Asks(w)) && Recorded(w, call) {
      ClosingIs(w, call);
    }
  }

  /** The sink and its listener decide only whether a call starts. Once the handler runs, what
      the call answers is what the handler does, whatever either throws at the ending. */
  lemma RecordingNeverChangesTheAnswer<T>(w: World<T>, call: int, resource: Option<string>, who: Option<string>,
                                          sink: Option<Event -> Option<Fault>>, listener: Option<Event -> Option<Fault>>)
    ensures var other := w.(sink := sink, listener := listener);
            && Attempted(w, call, resource, who).result == Attempted(other, call, resource, who).result == HandlerResult(w)
            && |Written(Attempted(other, call, resource, who).trace)|
               == if sink.Some? && w.handler != Threw(Mute) then 1 else 0
  {
    var other := w.(sink := sink, listener := listener);
    AttemptedEndsOnce(w, call, resource, who);
    AttemptedEndsOnce(other, call, resource, who);
    var event := HandlerEnding(other, call, resource, who);
    RecordingIs(other, event);
    OneWritten(Ran);
    WrittenAppend([Ran], Recording(other, event));
    assert [Ran] + [] == [Ran];
    hide Attempted, Recording;
  }

  // ---- The proxy's record of an answer being read ----

  /** What ends the record of a forwarded call: nothing said for a success, or the reason. */
  type Verdict = Option<string>

  /** What happens to the body of an answer: a read gave more, gave the end or failed, or the
      client cancelled. */
  datatype Signal = Chunk | End | ReadFailed(reason: string) | Cancelled

  const CLOSED := "The client closed the request."

  /** What a signal has to say about how the call ended, for an answer whose status says
      `ending`. */
  function VerdictOf(signal: Signal, ending: Verdict): Option<Verdict> {
    match signal
    case Chunk => None
    case End => Some(ending)
    case ReadFailed(reason) => Some(Some(reason))
    case Cancelled => Some(Some(CLOSED))
  }

  /** The first signal to end the call decides. */
  function FirstVerdict(signals: seq<Signal>, ending: Verdict): Option<Verdict> {
    if signals == [] then None
    else if VerdictOf(signals[0], ending).Some? then VerdictOf(signals[0], ending)
    else FirstVerdict(signals[1..], ending)
  }

  lemma {:induction false} FirstVerdictAppend(signals: seq<Signal>, signal: Signal, ending: Verdict)
    ensures FirstVerdict(signals + [signal], ending)
            == if FirstVerdict(signals, ending).Some? then FirstVerdict(signals, ending) else VerdictOf(signal, ending)
  {
    if signals == [] {
      assert [] + [signal] == [signal] && [signal][1..] == [];
    } else {
      FirstVerdictAppend(signals[1..], signal, ending);
      assert (signals + [signal])[1..] == signals[1..] + [signal];
    }
  }

  /** What the record says of the first signal that is no chunk. */
  lemma {:induction false} VerdictIs(chunks: nat, signal: Signal, rest: seq<Signal>, ending: Verdict)
    requires signal != Chunk
    ensures FirstVerdict(seq(chunks, i => Chunk) + [signal] + rest, ending)
            == Some(match signal
                    case ReadFailed(reason) => Some(reason)
                    case Cancelled => Some("The client closed the request.")
                    case _ => ending)
  {
    var all := seq(chunks, i => Chunk) + [signal] + rest;
    if chunks > 0 {
      VerdictIs(chunks - 1, signal, rest, ending);
      assert all[1..] == seq(chunks - 1, i => Chunk) + [signal] + rest;
    }
  }

  /** The terminal record of one forwarded call, written by whichever of reading to the end,
      failing and cancelling comes first. */
  class TerminalAudit {
    const ending: Verdict
    var written: bool
    /** The verdicts handed to the sink. */
    var log: seq<Verdict>
    ghost var signals: seq<Signal>

    ghost predicate Valid()
      reads this
    {
      var first := FirstVerdict(signals, ending);
      && written == first.Some?
      && log == if first.Some? then [first.value] else []
    }

    /** A call whose answer is about to be read: it succeeds, once read, when its status does. */
    constructor (ok: bool, status: string)
      ensures Valid() && signals == [] && ending == if ok then None else Some("HTTP " + status)
    {
      ending := if ok then None else Some("HTTP " + status);
      written, log, signals := false, [], [];
    }

    method Finish(failure: Verdict)
      modifies this`written, this`log
      ensures written && log == if old(written) then old(log) else old(log) + [failure]
    {
      if written { return; }
      written := true;
      log := log + [failure];
    }

    /** A read of the body, or its cancelling. */
    method Observe(signal: Signal)
      requires Valid()
      modifies this
      ensures Valid() && signals == old(signals) + [signal]
    {
      FirstVerdictAppend(signals, signal, ending);
      match signal {
        case Chunk =>
        case End => Finish(ending);
        case ReadFailed(reason) => Finish(Some(reason));
        case Cancelled => Finish(Some(CLOSED));
      }
      signals := signals + [signal];
    }
  }

  /** A forwarded call is on record as a success exactly when its status was one and the
      client read the answer to its end before anything failed or was cancelled. */
  lemma {:induction false} SuccessMeansReadWhole(signals: seq<Signal>, ending: Verdict)
    ensures FirstVerdict(signals, ending) == Some(None)
            <==> ending.None? && exists k | 0 <= k < |signals| ::
                   signals[k] == End && forall i | 0 <= i < k :: signals[i] == Chunk
  {
    if signals != [] {
      SuccessMeansReadWhole(signals[1..], ending);
      if signals[0] == Chunk {
        forall k | 0 <= k < |signals| - 1 && signals[1..][k] == End && (forall i | 0 <= i < k :: signals[1..][i] == Chunk)
          ensures signals[k + 1] == End && forall i | 0 <= i < k + 1 :: signals[i] == Chunk
        {
          forall i | 0 < i < k + 1 ensures signals[i] == Chunk { assert signals[i] == signals[1..][i - 1]; }
        }
      }
    }
  }
}
