/** The agent loop, over any model, sandbox and people. What a run announces is judged by a
    monitor that knows nothing of the loop. */
module Agent {
  import opened Conversation
  import opened Spans

  datatype EndReason = Stop | Length | Other | ToolLimit | Cancelled

  datatype Usage = Usage(promptTokens: nat, completionTokens: nat)

  /** One call to the model, run to its end. */
  datatype Reply = Reply(text: string, reason: EndReason, usage: Option<Usage>, error: Option<string>)

  datatype Extension = NoMore | More | Session

  datatype Answer = Deny | AllowOnce | AllowForSession | Forbid

  datatype Escalation = Refused | Granted | Ask | Forbidden

  /** Where a call runs: under the turn's own sandbox, or the wider one a ceiling allows. */
  datatype Reach = Own | Wider

  /** Everything the loop does not decide: the model, the sandbox, and the people. Each is
      asked at most once at a (step, index), so functions of those are every behaviour. A
      missing answer is a cancel that came while it was awaited. */
  datatype World = World(
    reply: (nat, bool) -> Reply,
    calls: string -> seq<ToolCall>,
    drifted: string -> bool,
    run: (nat, nat, ToolCall, Reach) -> ToolOutcome,
    escalate: (nat, nat) -> Escalation,
    answer: (nat, nat) -> Option<Answer>,
    extension: (nat, nat) -> Option<Extension>,
    retries: bool, asks: bool, extendable: bool)

  function ReplyOf(w: World, step: nat, retry: bool): Reply { w.reply(step, retry) }

  function CallsIn(w: World, text: string): seq<ToolCall> { w.calls(text) }

  predicate Drifted(w: World, text: string) { w.drifted(text) }

  function RunOf(w: World, step: nat, index: nat, call: ToolCall, reach: Reach): ToolOutcome {
    w.run(step, index, call, reach)
  }

  function EscalationOf(w: World, step: nat, index: nat): Escalation { w.escalate(step, index) }

  function AnswerOf(w: World, step: nat, index: nat): Option<Answer> { w.answer(step, index) }

  function ExtensionOf(w: World, step: nat, index: nat): Option<Extension> { w.extension(step, index) }

  const PERSON_REFUSED := "a person was asked and refused this call. Do not retry it or call another tool about it: answer them in plain text."

  const PERSON_FORBADE := "a person refused calls like this one for the rest of this session. Do not retry it or call another tool about it: answer them in plain text."

  function Denied(rule: string): ToolOutcome {
    ToolOutcome(Verdict(false, rule), "", Some("denied: " + rule), false)
  }

  datatype Event =
    | ModelCall(step: nat, messages: seq<Message>, retry: bool)
    | ToolCalled(step: nat, index: nat, call: ToolCall)
    | ToolResulted(step: nat, taken: ToolStep)
    | LimitExtended(step: nat, index: nat, budget: Option<nat>, session: bool)
    | ConstraintRefused(error: string)
    | Ended(reason: EndReason, usage: Option<Usage>)
    | Failed(error: string)
  {
    predicate Terminal() { Ended? || Failed? }
  }

  datatype AgentOutcome = AgentOutcome(text: string, steps: seq<ToolStep>, reason: EndReason,
                                       usage: Option<Usage>, error: Option<string>)

  /** Unknown plus known is known. */
  function Sum(total: Option<Usage>, step: Option<Usage>): Option<Usage> {
    match (total, step)
    case (Some(t), Some(s)) => Some(Usage(t.promptTokens + s.promptTokens, t.completionTokens + s.completionTokens))
    case (None, _) => step
    case (_, None) => total
  }

  /** What is known is added up, in any order, and what is not known changes nothing. */
  lemma SumLaws(a: Option<Usage>, b: Option<Usage>, c: Option<Usage>)
    ensures Sum(None, a) == Sum(a, None) == a && Sum(a, b) == Sum(b, a) && Sum(Sum(a, b), c) == Sum(a, Sum(b, c))
    ensures a.Some? && b.Some? ==>
      && Sum(a, b).Some? && Sum(a, b).value.promptTokens == a.value.promptTokens + b.value.promptTokens
      && Sum(a, b).value.completionTokens == a.value.completionTokens + b.value.completionTokens
  {
  }

  // ------------------------------------------------------------------- what a step's calls settle

  /** A first attempt that called nothing and drifted earns its retry. */
  predicate Retries(w: World, step: nat) {
    var first := ReplyOf(w, step, false);
    w.retries && CallsIn(w, first.text) == [] && Drifted(w, first.text)
  }

  /** Failing or being cancelled is the end of a turn, and a retry being refused is not. */
  predicate CutShort(w: World, step: nat) {
    var first := ReplyOf(w, step, false);
    first.error.Some? || first.reason.Cancelled? || (Retries(w, step) && ReplyOf(w, step, true).reason.Cancelled?)
  }

  /** The reply that counts: the retry, where there is one and it was not refused. */
  function Accepted(w: World, step: nat): Reply {
    if Retries(w, step) && ReplyOf(w, step, true).error.None? then ReplyOf(w, step, true) else ReplyOf(w, step, false)
  }

  /** Every attempt is paid for, the one thrown away too. */
  function Spent(w: World, step: nat, before: Option<Usage>): Option<Usage> {
    var first := ReplyOf(w, step, false);
    var once := Sum(before, first.usage);
    if first.error.None? && !first.reason.Cancelled? && Retries(w, step)
    then Sum(once, ReplyOf(w, step, true).usage) else once
  }

  /** A cancel that came while a person was being asked about the call. */
  predicate AnswerCancelled(w: World, step: nat, index: nat, call: ToolCall) {
    w.asks && !RunOf(w, step, index, call, Own).verdict.allowed
    && EscalationOf(w, step, index).Ask? && AnswerOf(w, step, index).None?
  }

  /** The budget in force once `n` calls of a reply have run: a call it does not cover is put
      to a person, who raises it by `more`, lifts it, or leaves it. */
  function BudgetAfter(w: World, step: nat, more: nat, used: nat, budget: Option<nat>, n: nat): Option<nat> {
    if n == 0 then budget
    else
      var before := BudgetAfter(w, step, more, used, budget, n - 1);
      if before.None? || used + n - 1 < before.value || !w.extendable then before
      else
        match ExtensionOf(w, step, n)
        case Some(More) => Some(before.value + more)
        case Some(Session) => None
        case _ => before
  }

  /** A reply's calls were cut by a cancel: in the middle of a question about a call, or about
      the budget the next one needs. */
  predicate CutByCancel(w: World, step: nat, calls: seq<ToolCall>, n: nat)
    requires n <= |calls|
  {
    (n > 0 && AnswerCancelled(w, step, n, calls[n - 1]))
    || (n < |calls| && w.extendable && ExtensionOf(w, step, n + 1).None?)
  }

  /** Or by a person who said that was enough. */
  predicate CutByPerson(w: World, step: nat, calls: seq<ToolCall>, n: nat)
    requires n <= |calls|
  {
    n < |calls| && !(n > 0 && AnswerCancelled(w, step, n, calls[n - 1]))
    && w.extendable && ExtensionOf(w, step, n + 1) == Some(NoMore)
  }

  // ------------------------------------------------------------------------------- the monitor

  datatype Phase =
    | Between                                          // no call is out
    | Attempted                                        // a first attempt was just announced
    | Pending(index: nat, call: ToolCall)              // a tool call waits for its result
    | Over
    | Violated

  /** What a reader of the announcements knows so far. */
  datatype Seen = Seen(phase: Phase, step: nat, steps: seq<ToolStep>, mores: nat, lifted: bool)

  /** What a budget of `more` calls allows once *more* was answered `mores` times. */
  function Allowance(more: nat, mores: nat): nat {
    more * (1 + mores)
  }

  lemma AllowanceGrows(more: nat, mores: nat)
    ensures Allowance(more, 0) == more
    ensures Allowance(more, mores + 1) == Allowance(more, mores) + more
  {
  }

  /** Whether one more call may be made. */
  predicate MayCall(more: nat, seen: Seen) {
    seen.lifted || |seen.steps| < Allowance(more, seen.mores)
  }

  function Watch1(initial: seq<Message>, more: nat, seen: Seen, e: Event): Seen {
    match e
    case ModelCall(step, messages, retry) =>
      if messages != initial + Verbatim(seen.steps) then seen.(phase := Violated)
      else if !retry && seen.phase.Between? && step == seen.step + 1 then seen.(phase := Attempted, step := step)
      else if retry && seen.phase.Attempted? && step == seen.step then seen.(phase := Between)
      else seen.(phase := Violated)
    case ToolCalled(step, index, call) =>
      if (seen.phase.Between? || seen.phase.Attempted?) && step == seen.step && MayCall(more, seen)
      then seen.(phase := Pending(index, call))
      else seen.(phase := Violated)
    case ToolResulted(step, taken) =>
      if seen.phase == Pending(taken.index, taken.call) && step == seen.step
      then seen.(phase := Between, steps := seen.steps + [taken])
      else seen.(phase := Violated)
    case LimitExtended(step, index, budget, session) =>
      if (seen.phase.Between? || seen.phase.Attempted?) && step == seen.step && !seen.lifted
         && budget == (if session then None else Some(Allowance(more, seen.mores + 1)))
      then seen.(phase := Between, mores := seen.mores + (if session then 0 else 1), lifted := session)
      else seen.(phase := Violated)
    case ConstraintRefused(_) =>
      if seen.phase.Between? then seen else seen.(phase := Violated)
    case Ended(_, _) =>
      if seen.phase.Between? || seen.phase.Attempted? then seen.(phase := Over) else seen.(phase := Violated)
    case Failed(_) =>
      if seen.phase.Attempted? then seen.(phase := Over) else seen.(phase := Violated)
  }

  function Watch(initial: seq<Message>, more: nat, events: seq<Event>): Seen {
    if events == [] then Seen(Between, 0, [], 0, false)
    else Watch1(initial, more, Watch(initial, more, events[..|events| - 1]), events[|events| - 1])
  }

  lemma Watched(initial: seq<Message>, more: nat, events: seq<Event>, e: Event)
    ensures Watch(initial, more, events + [e]) == Watch1(initial, more, Watch(initial, more, events), e)
  {
    assert (events + [e])[..|events + [e]| - 1] == events;
  }

  // ---------------------------------------------------------------------- what acceptance means

  lemma {:induction false} ViolatedStays(initial: seq<Message>, more: nat, events: seq<Event>, i: nat)
    requires i <= |events| && !Watch(initial, more, events).phase.Violated?
    ensures !Watch(initial, more, events[..i]).phase.Violated?
    decreases |events|
  {
    if i < |events| {
      var front := events[..|events| - 1];
      ViolatedStays(initial, more, front, i);
      assert front[..i] == events[..i];
    } else {
      assert events[..i] == events;
    }
  }

  /** The step the monitor takes at event `i` is not a violation. */
  lemma AtEvent(initial: seq<Message>, more: nat, events: seq<Event>, i: nat)
    requires i < |events| && !Watch(initial, more, events).phase.Violated?
    ensures !Watch(initial, more, events[..i]).phase.Violated?
    ensures Watch(initial, more, events[..i + 1]) == Watch1(initial, more, Watch(initial, more, events[..i]), events[i])
    ensures !Watch(initial, more, events[..i + 1]).phase.Violated?
  {
    hide Verbatim, Allowance, MayCall, Watch1;
    ViolatedStays(initial, more, events, i);
    ViolatedStays(initial, more, events, i + 1);
    assert events[..i + 1] == events[..i] + [events[i]];
    Watched(initial, more, events[..i], events[i]);
  }

  function ExecutedIn(events: seq<Event>): seq<ToolStep> {
    if events == [] then []
    else
      var last := events[|events| - 1];
      ExecutedIn(events[..|events| - 1]) + if last.ToolResulted? then [last.taken] else []
  }

  function MoresIn(events: seq<Event>): nat {
    if events == [] then 0
    else
      var last := events[|events| - 1];
      MoresIn(events[..|events| - 1]) + if last.LimitExtended? && !last.session then 1 else 0
  }

  predicate Lifts(e: Event) {
    e.LimitExtended? && e.session
  }

  predicate LiftedIn(events: seq<Event>) {
    exists i | 0 <= i < |events| :: Lifts(events[i])
  }

  lemma LiftedStays(events: seq<Event>)
    requires events != []
    ensures LiftedIn(events) <==> LiftedIn(events[..|events| - 1]) || Lifts(events[|events| - 1])
  {
    var front := events[..|events| - 1];
    if i :| 0 <= i < |front| && Lifts(front[i]) {
      assert Lifts(events[i]);
    }
    if i :| 0 <= i < |events| && Lifts(events[i]) && i < |front| {
      assert Lifts(front[i]);
    }
  }

  lemma LiftedNever()
    ensures !LiftedIn([])
  {
  }

  lemma {:induction false} WhatWasSeen(initial: seq<Message>, more: nat, events: seq<Event>)
    requires !Watch(initial, more, events).phase.Violated?
    ensures Watch(initial, more, events).steps == ExecutedIn(events)
    ensures Watch(initial, more, events).mores == MoresIn(events)
    ensures Watch(initial, more, events).lifted <==> LiftedIn(events)
  {
    hide Verbatim, Allowance, MayCall, LiftedIn;
    LiftedNever();
    if events != [] {
      ViolatedStays(initial, more, events, |events| - 1);
      WhatWasSeen(initial, more, events[..|events| - 1]);
      LiftedStays(events);
    }
  }

  /** Replay: every announced call to the model, first attempt or retry, sends the initial
      prompt and then the exchange of every step executed so far, and nothing else. */
  lemma EveryCallReplays(initial: seq<Message>, more: nat, events: seq<Event>, i: nat)
    requires !Watch(initial, more, events).phase.Violated? && i < |events| && events[i].ModelCall?
    ensures events[i].messages == initial + Verbatim(ExecutedIn(events[..i]))
  {
    AtEvent(initial, more, events, i);
    WhatWasSeen(initial, more, events[..i]);
  }

  /** A retry follows its own first attempt at once, with the same messages: so at most one. */
  lemma RetriesFollowAttempts(initial: seq<Message>, more: nat, events: seq<Event>, i: nat)
    requires !Watch(initial, more, events).phase.Violated? && i < |events|
    requires events[i].ModelCall? && events[i].retry
    ensures i > 0 && events[i - 1] == ModelCall(events[i].step, events[i].messages, false)
  {
    hide Verbatim, Allowance, MayCall;
    AtEvent(initial, more, events, i);
    if i > 0 {
      AtEvent(initial, more, events, i - 1);
    }
  }

  /** Every announced tool call is answered by the very next event, with its step, its
      index and itself. */
  lemma CallsAreAnswered(initial: seq<Message>, more: nat, events: seq<Event>, i: nat)
    requires Watch(initial, more, events).phase.Over? && i < |events| && events[i].ToolCalled?
    ensures i + 1 < |events| && events[i + 1].ToolResulted? && events[i + 1].step == events[i].step
    ensures events[i + 1].taken.index == events[i].index && events[i + 1].taken.call == events[i].call
  {
    hide Verbatim, Allowance, MayCall, Watch;
    AtEvent(initial, more, events, i);
    assert events[..|events|] == events;
    if i + 1 < |events| {
      AtEvent(initial, more, events, i + 1);
    }
  }

  /** A finished run announced exactly one end, last. */
  lemma {:induction false} OneEnd(initial: seq<Message>, more: nat, events: seq<Event>, i: nat)
    requires Watch(initial, more, events).phase.Over? && i < |events|
    ensures events[i].Terminal() <==> i == |events| - 1
  {
    hide Verbatim, Allowance, MayCall, Watch;
    AtEvent(initial, more, events, i);
    assert events[..|events|] == events;
    if i < |events| - 1 {
      AtEvent(initial, more, events, i + 1);
    }
  }

  /** Executed calls never exceed the budget times one more than the *more* answers, unless
      the session lifted the limit; and the budget holds at every point of the run. */
  lemma {:induction false} BudgetHolds(initial: seq<Message>, more: nat, events: seq<Event>)
    requires !Watch(initial, more, events).phase.Violated? && !LiftedIn(events)
    ensures var pending := if Watch(initial, more, events).phase.Pending? then 1 else 0;
            |ExecutedIn(events)| + pending <= Allowance(more, MoresIn(events))
  {
    hide Allowance, Verbatim;
    AllowanceGrows(more, 0);
    if events != [] {
      var front, last := events[..|events| - 1], events[|events| - 1];
      ViolatedStays(initial, more, events, |events| - 1);
      LiftedStays(events);
      BudgetHolds(initial, more, front);
      WhatWasSeen(initial, more, front);
      WhatWasSeen(initial, more, events);
      AllowanceGrows(more, MoresIn(front));
    }
  }

  // ------------------------------------------------------------------------------------ the loop

  /** The reply itself opens its exchange, before the first of its results. */
  function Opening(text: string, n: nat): seq<Message> {
    if n == 0 then [Message(Assistant, text)] else []
  }

  /** Calls of one reply are executed in order from its first, none skipped, each under
      its own number. */
  predicate Executed(text: string, calls: seq<ToolCall>, before: seq<ToolStep>, after: seq<ToolStep>) {
    && before <= after && |after| - |before| <= |calls|
    && forall k :: |before| <= k < |after| ==>
         after[k].text == text && after[k].call == calls[k - |before|] && after[k].index == k - |before| + 1
  }

  /** One more call of a reply executed; and so what a turn executes is numbered reply by
      reply, as a reader of it expects. */
  lemma OneMoreExecuted(text: string, calls: seq<ToolCall>, before: seq<ToolStep>, after: seq<ToolStep>, taken: ToolStep)
    requires Executed(text, calls, before, after) && InReplyOrder(after) && |after| - |before| < |calls|
    requires taken.text == text && taken.index == |after| - |before| + 1 && taken.call == calls[|after| - |before|]
    ensures Executed(text, calls, before, after + [taken]) && InReplyOrder(after + [taken])
  {
    var more := after + [taken];
    forall k | 0 <= k < |more| ensures more[k].index == 1 || (k > 0 && more[k].index == more[k - 1].index + 1) {
      if k < |after| {
        assert more[k] == after[k] && (k > 0 ==> more[k - 1] == after[k - 1]);
      }
    }
  }

  lemma VerbatimSnoc(steps: seq<ToolStep>, taken: ToolStep, n: nat)
    requires taken.index == n + 1
    ensures Verbatim(steps + [taken])
         == Verbatim(steps) + Opening(taken.text, n) + [Message(User, taken.ResultText())]
  {
    assert (steps + [taken])[..|steps|] == steps;
  }

  class AgentTurn {
    const world: World
    const initial: seq<Message>
    const more: nat
    var step: nat
    var budget: Option<nat>
    var stopped: bool
    var messages: seq<Message>
    var steps: seq<ToolStep>
    var usage: Option<Usage>
    var events: seq<Event>
    ghost var seen: Seen  // what the monitor makes of `events`

    /** The budget is the one the announcements justify. */
    ghost predicate Budgeted()
      reads this
    {
      && more >= 1 && seen == Watch(initial, more, events) && seen.steps == steps && seen.step == step
      && (budget.None? <==> seen.lifted)
      && (budget.Some? ==> budget.value == Allowance(more, seen.mores) && |steps| <= budget.value && budget.value >= 1)
    }

    /** Between two rounds. */
    ghost predicate Running()
      reads this
    {
      && Budgeted() && seen.phase.Between? && !stopped && InReplyOrder(steps)
      && messages == initial + Verbatim(steps)
      && (!world.extendable ==> budget.Some? && |steps| < budget.value)
    }

    ghost predicate Finished(outcome: AgentOutcome)
      reads this
    {
      && seen == Watch(initial, more, events) && seen.phase.Over? && outcome.steps == seen.steps
      && InReplyOrder(outcome.steps)
    }

    constructor (world: World, initial: seq<Message>, maxSteps: nat)
      ensures Running() && this.world == world && this.initial == initial
      ensures more == (if maxSteps == 0 then 1 else maxSteps) && steps == [] && events == []
    {
      this.world := world;
      this.initial := initial;
      more := if maxSteps == 0 then 1 else maxSteps;
      step, stopped, messages, steps, usage, events := 0, false, initial, [], None, [];
      seen := Seen(Between, 0, [], 0, false);
      budget := Some(if maxSteps == 0 then 1 else maxSteps);
      new;
      AllowanceGrows(more, 0);
      assert initial + Verbatim([]) == initial;
    }

    method Emit(e: Event)
      modifies this`events, this`seen
      requires seen == Watch(initial, more, events)
      ensures events == old(events) + [e] && seen == Watch1(initial, more, old(seen), e)
      ensures seen == Watch(initial, more, events)
    {
      events := events + [e];
      seen := Watch1(initial, more, seen, e);
      Watched(initial, more, old(events), e);
    }

    /** One call of a reply: announced, run, put to a person where a click may reach further,
        and answered. `taken` is what the history keeps of it. */
    method RunOne(text: string, index: nat, call: ToolCall) returns (taken: ToolStep, cancelled: bool)
      requires Budgeted() && (seen.phase.Between? || seen.phase.Attempted?)
      requires budget.None? || |steps| < budget.value
      modifies this`events, this`seen, this`steps
      ensures steps == old(steps) + [taken] && Budgeted() && seen.phase.Between?
      ensures taken.text == text && taken.call == call && taken.index == index
      ensures seen.mores == old(seen.mores)
      ensures Settled(world, step, index, call, taken, cancelled)
      ensures cancelled <==> AnswerCancelled(world, step, index, call)
      ensures events == old(events) + [ToolCalled(step, index, call), ToolResulted(step, taken)]
    {
      hide Allowance, Verbatim, Watch;
      Emit(ToolCalled(step, index, call));
      var result := RunOf(world, step, index, call, Own);
      var asked, grant := None, None;
      cancelled := false;
      var escalation := if world.asks && !result.verdict.allowed then EscalationOf(world, step, index) else Refused;
      match escalation {
        case Refused =>
        case Granted =>
          result := RunOf(world, step, index, call, Wider);
          grant := Some(GrantSession);
        case Forbidden =>
          result := Denied(PERSON_FORBADE);
          grant := Some(GrantSession);
        case Ask =>
          match AnswerOf(world, step, index) {
            case Some(AllowOnce) =>
              result := RunOf(world, step, index, call, Wider);
              asked, grant := Some(true), Some(GrantOnce);
            case Some(AllowForSession) =>
              result := RunOf(world, step, index, call, Wider);
              asked, grant := Some(true), Some(GrantSession);
            case Some(Deny) =>
              result := Denied(PERSON_REFUSED);
              asked := Some(false);
            case Some(Forbid) =>
              result := Denied(PERSON_FORBADE);
              asked, grant := Some(false), Some(GrantSession);
            case None =>
              cancelled := true;
          }
      }
      taken := ToolStep(text, call, index, result, asked, grant);
      Emit(ToolResulted(step, taken));
      steps := steps + [taken];
    }

    /** Somebody is asked whether a call beyond the budget may run. */
    method Extend(index: nat) returns (answer: Option<Extension>)
      requires Budgeted() && world.extendable && budget.Some? && |steps| >= budget.value
      requires seen.phase.Between? || seen.phase.Attempted?
      modifies this`events, this`seen, this`budget
      ensures Budgeted() && answer == ExtensionOf(world, step, index)
      ensures answer.None? || answer.value.NoMore? ==> events == old(events) && seen == old(seen) && budget == old(budget)
      ensures answer.Some? && !answer.value.NoMore? ==>
                && seen.phase.Between? && (budget.None? || |steps| < budget.value)
                && budget == (if answer.value.More? then Some(old(budget).value + more) else None)
                && events == old(events) + [LimitExtended(step, index, budget, answer.value.Session?)]
    {
      hide Allowance, Verbatim, Watch;
      answer := ExtensionOf(world, step, index);
      AllowanceGrows(more, seen.mores);
      match answer {
        case Some(More) =>
          budget := Some(budget.value + more);
          Emit(LimitExtended(step, index, budget, false));
        case Some(Session) =>
          budget := None;
          Emit(LimitExtended(step, index, None, true));
        case Some(NoMore) =>
        case None =>
      }
    }

    /** Whether the next call may be made: within the budget, or let past it by a person. */
    method Proceed(index: nat) returns (go: bool, cancelled: bool)
      requires Budgeted() && !stopped && (seen.phase.Between? || seen.phase.Attempted?)
      modifies this`events, this`seen, this`budget, this`stopped
      ensures Budgeted() && (seen.phase.Between? || (seen.phase.Attempted? && old(seen.phase.Attempted?)))
      ensures go ==> !stopped && !cancelled && (budget.None? || |steps| < budget.value)
      ensures stopped ==> !cancelled && budget.Some? && |steps| >= budget.value
      ensures !go ==> events == old(events) && budget == old(budget)
      ensures old(budget.None? || |steps| < budget.value) ==> go && events == old(events) && budget == old(budget)
      ensures !go && !stopped && !cancelled ==> !world.extendable && budget.Some? && |steps| >= budget.value
      ensures !world.extendable ==> !stopped && !cancelled && budget == old(budget)
      ensures old(budget.Some? && |steps| >= budget.value) && world.extendable ==>
                && (go <==> ExtensionOf(world, step, index) in {Some(More), Some(Extension.Session)})
                && (stopped <==> ExtensionOf(world, step, index) == Some(NoMore))
                && (cancelled <==> ExtensionOf(world, step, index) == None)
      ensures go && events != old(events) ==>
                events == old(events) + [LimitExtended(step, index, budget, budget.None?)]
      ensures go ==> LetThrough(world, step, index, more, |steps|, old(budget), budget)
    {
      hide Allowance, Verbatim, Watch;
      cancelled := false;
      if budget.None? || |steps| < budget.value {
        return true, false;
      }
      if !world.extendable {
        return false, false;
      }
      var answer := Extend(index);
      stopped := answer.Some? && answer.value.NoMore?;
      return answer.Some? && !stopped, answer.None?;
    }

    /** The one terminal event, and the outcome beside it. */
    method End(e: Event, text: string, reason: EndReason, error: Option<string>) returns (outcome: AgentOutcome)
      requires seen == Watch(initial, more, events) && seen.steps == steps && InReplyOrder(steps) && e.Terminal()
      requires seen.phase.Attempted? || (e.Ended? && seen.phase.Between?)
      modifies this`events, this`seen
      ensures Finished(outcome) && outcome == AgentOutcome(text, steps, reason, usage, error)
      ensures events == old(events) + [e]
    {
      Emit(e);
      outcome := AgentOutcome(text, steps, reason, usage, error);
    }

    /** The calls of one reply, in order: each within the budget, or extended, or left
        unexecuted when nobody extends it. */
    method RunCalls(text: string, calls: seq<ToolCall>) returns (cancelled: bool)
      requires Budgeted() && InReplyOrder(steps) && calls != [] && !stopped && (seen.phase.Between? || seen.phase.Attempted?)
      requires messages == initial + Verbatim(steps)
      requires !world.extendable ==> budget.Some? && |steps| < budget.value
      modifies this`events, this`seen, this`steps, this`budget, this`stopped, this`messages
      ensures Budgeted() && (seen.phase.Between? || seen.phase.Attempted?)
      ensures Ran(world, step, more, text, calls, old(steps), steps, old(budget), budget) && InReplyOrder(steps)
      ensures stopped ==> !cancelled && budget.Some? && |steps| >= budget.value
      ensures !cancelled && !stopped && |steps| < |old(steps)| + |calls| ==>
                !world.extendable && budget.Some? && |steps| >= budget.value
      ensures !cancelled && !stopped ==> seen.phase.Between? && messages == initial + Verbatim(steps)
      ensures !world.extendable ==> !stopped && budget == old(budget) && |old(steps)| < |steps|
      ensures |steps| < |old(steps)| + |calls| && !cancelled ==> budget.Some? && |steps| >= budget.value
      ensures |old(steps)| <= |steps| <= |old(steps)| + |calls|
      ensures cancelled <==> CutByCancel(world, step, calls, |steps| - |old(steps)|)
      ensures stopped <==> CutByPerson(world, step, calls, |steps| - |old(steps)|)
    {
      hide Verbatim, Watch, Allowance, Settled, Executed, InReplyOrder, BudgetAfter, WithinBudget, CallsSettled, AnswerCancelled,
        Ran, CutByCancel, CutByPerson, LetThrough, Covers;
      NothingRan(world, step, more, text, calls, steps, budget);
      messages := messages + [Message(Assistant, text)];
      cancelled := false;
      var n := 0;
      while n < |calls|
        invariant 0 <= n <= |calls| && Budgeted() && !stopped && !cancelled
        invariant Ran(world, step, more, text, calls, old(steps), steps, old(budget), budget)
        invariant |steps| == |old(steps)| + n && InReplyOrder(steps)
        invariant seen.phase.Between? || (n == 0 && seen.phase.Attempted?)
        invariant messages == initial + Verbatim(steps) + Opening(text, n)
        invariant !world.extendable ==> budget == old(budget)
        invariant n == 0 && !world.extendable ==> budget.Some? && |steps| < budget.value
        invariant n > 0 ==> !AnswerCancelled(world, step, n, calls[n - 1])
      {
        ghost var held := budget;
        var go;
        go, cancelled := Proceed(n + 1);
        if !go {
          CutBefore(world, step, calls, n, cancelled, stopped);
          return;
        }
        ghost var before := steps;
        var taken, refused := RunOne(text, n + 1, calls[n]);
        VerbatimSnoc(before, taken, n);
        OneMoreRan(world, step, more, text, calls, old(steps), before, old(budget), held, budget, taken, refused);
        messages := messages + [Message(User, taken.ResultText())];
        n := n + 1;
        if refused {
          cancelled := true;
          CutAfter(world, step, calls, n);
          return;
        }
      }
      NotCut(world, step, calls);
    }

    /** The first attempt, and the one retry a drifted reply earns. */
    method CallModel() returns (reply: Reply, ended: Option<AgentOutcome>)
      requires Running()
      modifies this`events, this`seen, this`step, this`usage
      ensures step == old(step) + 1 && usage == Spent(world, step, old(usage))
      ensures ended.Some? <==> CutShort(world, step)
      ensures ended.None? ==> reply == Accepted(world, step)
      ensures
        var first, second := ReplyOf(world, step, false), ReplyOf(world, step, true);
        var over := first.error.Some? || first.reason.Cancelled?;
        var again := !over && world.retries && CallsIn(world, first.text) == [] && Drifted(world, first.text);
        var last := if again then second else first;
        && (ended.Some? <==> over || (again && second.reason.Cancelled?))
        && usage == Sum(Sum(old(usage), first.usage), if again then second.usage else None)
        && (ended.None? ==> reply == if again && second.error.None? then second else first)
        && (ended.Some? ==> ended.value == AgentOutcome(last.text, steps, last.reason, usage, last.error))
        && events == old(events) + [ModelCall(step, messages, false)]
                     + (if again then [ModelCall(step, messages, true)] else [])
                     + (if ended.Some? then [if first.error.Some? then Failed(first.error.value) else Ended(Cancelled, None)]
                        else if again && second.error.Some? then [ConstraintRefused(second.error.value)] else [])
      ensures ended.None? ==> Budgeted() && (seen.phase.Between? || seen.phase.Attempted?) && seen.mores == old(seen.mores)
      ensures ended.Some? ==> Finished(ended.value)
    {
      hide Allowance, Watch, Verbatim;
      ended := None;
      step := step + 1;
      Emit(ModelCall(step, messages, false));
      reply := ReplyOf(world, step, false);
      usage := Sum(usage, reply.usage);
      if reply.error.Some? || reply.reason.Cancelled? {
        var e := if reply.error.Some? then Failed(reply.error.value) else Ended(Cancelled, None);
        var outcome := End(e, reply.text, reply.reason, reply.error);
        ended := Some(outcome);
        return;
      }
      if world.retries && CallsIn(world, reply.text) == [] && Drifted(world, reply.text) {
        Emit(ModelCall(step, messages, true));
        var retried := ReplyOf(world, step, true);
        usage := Sum(usage, retried.usage);
        if retried.reason.Cancelled? {
          var outcome := End(Ended(Cancelled, None), retried.text, retried.reason, retried.error);
          ended := Some(outcome);
          return;
        }
        match retried.error {
          case Some(error) => Emit(ConstraintRefused(error));
          case None => reply := retried;
        }
      }
    }

    /** This is how the turn ended, and this is the last thing it announced. */
    predicate Ends(ended: Option<AgentOutcome>, outcome: AgentOutcome, last: Event)
      reads `events
    {
      ended == Some(outcome) && events != [] && events[|events| - 1] == last
    }

    /** One round of the loop: it ends the turn, or it ran at least one call. */
    method Round() returns (ended: Option<AgentOutcome>)
      requires Running()
      modifies this`events, this`seen, this`step, this`usage, this`steps, this`budget, this`stopped, this`messages
      ensures ended.Some? ==> Finished(ended.value)
      ensures ended.None? ==> Running()
      ensures ended.None? && !world.extendable ==> budget == old(budget) && |old(steps)| < |steps|
      ensures step == old(step) + 1 && usage == Spent(world, step, old(usage))
      ensures CutShort(world, step) ==>
                var first, second := ReplyOf(world, step, false), ReplyOf(world, step, true);
                var last := if first.error.Some? || first.reason.Cancelled? then first else second;
                && steps == old(steps)
                && Ends(ended, AgentOutcome(last.text, steps, last.reason, usage, last.error),
                        if first.error.Some? then Failed(first.error.value) else Ended(Cancelled, None))
      ensures var reply := Accepted(world, step); !CutShort(world, step) && CallsIn(world, reply.text) == [] ==>
                && steps == old(steps)
                && Ends(ended, AgentOutcome(reply.text, steps, reply.reason, usage, reply.error), Ended(reply.reason, usage))
      ensures var reply := Accepted(world, step); !CutShort(world, step) && CallsIn(world, reply.text) != [] ==>
                Ran(world, step, more, reply.text, CallsIn(world, reply.text), old(steps), steps, old(budget), budget)
      ensures var reply := Accepted(world, step); !CutShort(world, step) && CallsIn(world, reply.text) != [] ==>
                var calls, n := CallsIn(world, reply.text), |steps| - |old(steps)|;
                && 0 <= n <= |calls|
                && if CutByCancel(world, step, calls, n) then
                     Ends(ended, AgentOutcome(reply.text, steps, Cancelled, usage, None), Ended(Cancelled, None))
                   else if CutByPerson(world, step, calls, n) || (!world.extendable && budget.Some? && |steps| >= budget.value)
                   then steps != []
                        && Ends(ended, AgentOutcome(steps[|steps| - 1].text, steps, ToolLimit, usage, None),
                                Ended(ToolLimit, usage))
                   else ended.None? && n == |calls|
    {
      hide Allowance, Verbatim, Watch, CutShort, Accepted, Spent, Executed, InReplyOrder, BudgetAfter,
        WithinBudget, CallsSettled, CutByCancel, CutByPerson, Ran;
      var reply;
      reply, ended := CallModel();
      if ended.Some? {
        return;
      }
      var calls := CallsIn(world, reply.text);
      if calls == [] {
        var outcome := End(Ended(reply.reason, usage), reply.text, reply.reason, reply.error);
        ended := Some(outcome);
        return;
      }
      ghost var before := steps;
      var cancelled := RunCalls(reply.text, calls);
      if cancelled {
        var outcome := End(Ended(Cancelled, None), reply.text, Cancelled, None);
        ended := Some(outcome);
      } else if stopped || (!world.extendable && budget.Some? && |steps| >= budget.value) {
        var outcome := End(Ended(ToolLimit, usage), if steps == [] then "" else steps[|steps| - 1].text, ToolLimit, None);
        ended := Some(outcome);
      }
    }

    /** The turn. With nobody to extend it the loop ends by itself, each round spending some
        of the budget that is left; with somebody it runs as many rounds as it is let. */
    method Run(rounds: nat) returns (ended: Option<AgentOutcome>)
      requires Running()
      modifies this`events, this`seen, this`step, this`usage, this`steps, this`budget, this`stopped, this`messages
      ensures ended.Some? ==> Finished(ended.value)
      ensures ended.None? ==> Running() && world.extendable && step == old(step) + rounds
      ensures ended.Some? && world.extendable ==> old(step) < step <= old(step) + rounds
    {
      hide Verbatim, Watch, Allowance, Settled, Executed, InReplyOrder, BudgetAfter, WithinBudget, CallsSettled,
        CutShort, Accepted, Spent, CutByCancel, CutByPerson, Ran, AgentTurn.Ends;
      ended := None;
      var left := rounds;
      while ended.None? && (left > 0 || !world.extendable)
        invariant ended.Some? ==> Finished(ended.value)
        invariant ended.None? ==> Running()
        invariant old(step) <= step && (ended.Some? ==> old(step) < step)
        invariant 0 <= left <= rounds && (world.extendable ==> step == old(step) + rounds - left)
        decreases ended.None?, if world.extendable then left else budget.GetOr(0) - |steps|
      {
        ended := Round();
        left := if left > 0 then left - 1 else 0;
      }
    }
  }

  /** How a call may come to have run as it did: under the wider sandbox only where the
      turn's own refused it and either the ceiling had granted it or a person said yes; and
      a person's no is never a run. */
  predicate Settled(world: World, step: nat, index: nat, call: ToolCall, taken: ToolStep, cancelled: bool) {
    var own, wider := RunOf(world, step, index, call, Own), RunOf(world, step, index, call, Wider);
    var escalation, answer := EscalationOf(world, step, index), AnswerOf(world, step, index);
    if !world.asks || own.verdict.allowed || escalation.Refused? then
      taken.outcome == own && taken.asked == None && taken.grant == None && !cancelled
    else if escalation.Ask? && answer.None? then
      taken.outcome == own && taken.asked == None && taken.grant == None && cancelled
    else if escalation.Granted? || (escalation.Ask? && answer.value in {AllowOnce, AllowForSession}) then
      taken.outcome == wider && !cancelled && (taken.asked == if escalation.Ask? then Some(true) else None)
      && (taken.grant == Some(if escalation.Ask? && answer.value.AllowOnce? then GrantOnce else GrantSession))
    else
      taken.outcome == Denied(if escalation.Ask? && answer.value.Deny? then PERSON_REFUSED else PERSON_FORBADE)
      && !taken.outcome.verdict.allowed && taken.outcome.output == "" && !cancelled
      && (taken.asked == if escalation.Ask? then Some(false) else None)
      && (taken.grant == if escalation.Ask? && answer.value.Deny? then None else Some(GrantSession))
  }

  /** Each call of the reply that ran was settled so, and a question cut by a cancel was
      about the last of them. */
  predicate CallsSettled(world: World, step: nat, calls: seq<ToolCall>, before: seq<ToolStep>, after: seq<ToolStep>) {
    && |before| <= |after| <= |before| + |calls|
    && (forall k | 0 <= k < |after| - |before| ::
          && Settled(world, step, k + 1, calls[k], after[|before| + k], AnswerCancelled(world, step, k + 1, calls[k]))
          && (AnswerCancelled(world, step, k + 1, calls[k]) ==> k + 1 == |after| - |before|))
  }

  lemma OneMoreSettled(world: World, step: nat, calls: seq<ToolCall>, before: seq<ToolStep>, after: seq<ToolStep>,
                       taken: ToolStep, cancelled: bool)
    requires CallsSettled(world, step, calls, before, after) && |after| - |before| < |calls|
    requires var n := |after| - |before|;
             && (n > 0 ==> !AnswerCancelled(world, step, n, calls[n - 1]))
             && Settled(world, step, n + 1, calls[n], taken, cancelled)
             && (cancelled <==> AnswerCancelled(world, step, n + 1, calls[n]))
    ensures CallsSettled(world, step, calls, before, after + [taken])
  {
    hide Settled, AnswerCancelled;
    var more := after + [taken];
    forall k | 0 <= k < |more| - |before|
      ensures Settled(world, step, k + 1, calls[k], more[|before| + k], AnswerCancelled(world, step, k + 1, calls[k]))
      ensures AnswerCancelled(world, step, k + 1, calls[k]) ==> k + 1 == |more| - |before|
    {
      if k < |after| - |before| {
        assert more[|before| + k] == after[|before| + k];
        assert AnswerCancelled(world, step, k + 1, calls[k]) ==> k + 1 == |after| - |before|;
      }
    }
  }

  /** Every call that ran was within the budget then in force. */
  predicate WithinBudget(world: World, step: nat, more: nat, used: nat, budget: Option<nat>, n: nat) {
    forall k | 0 <= k < n :: WasCovered(world, step, more, used, budget, k)
  }

  predicate WasCovered(world: World, step: nat, more: nat, used: nat, budget: Option<nat>, k: nat) {
    Covers(BudgetAfter(world, step, more, used, budget, k + 1), used + k)
  }

  predicate Covers(budget: Option<nat>, used: nat) {
    budget.None? || used < budget.value
  }

  /** A call was let through under the budget, as it stood or as a person left it. */
  predicate LetThrough(world: World, step: nat, index: nat, more: nat, used: nat, before: Option<nat>, after: Option<nat>) {
    Covers(after, used)
    && if Covers(before, used) then after == before
       else
         && world.extendable && ExtensionOf(world, step, index) in {Some(More), Some(Extension.Session)}
         && after == if ExtensionOf(world, step, index) == Some(More) then Some(before.value + more) else None
  }

  lemma OneMoreCovered(world: World, step: nat, more: nat, used: nat, budget: Option<nat>, n: nat, after: Option<nat>)
    requires WithinBudget(world, step, more, used, budget, n)
    requires LetThrough(world, step, n + 1, more, used + n, BudgetAfter(world, step, more, used, budget, n), after)
    ensures after == BudgetAfter(world, step, more, used, budget, n + 1)
    ensures WithinBudget(world, step, more, used, budget, n + 1)
  {
    assert WasCovered(world, step, more, used, budget, n);
  }

  /** The calls of a reply that ran: in order from its first, each settled, each under the
      budget in force, and that budget what the answers made of it. */
  predicate Ran(world: World, step: nat, more: nat, text: string, calls: seq<ToolCall>, before: seq<ToolStep>,
                after: seq<ToolStep>, held: Option<nat>, budget: Option<nat>)
  {
    && Executed(text, calls, before, after) && CallsSettled(world, step, calls, before, after)
    && WithinBudget(world, step, more, |before|, held, |after| - |before|)
    && budget == BudgetAfter(world, step, more, |before|, held, |after| - |before|)
  }

  lemma NothingRan(world: World, step: nat, more: nat, text: string, calls: seq<ToolCall>, steps: seq<ToolStep>,
                   budget: Option<nat>)
    ensures Ran(world, step, more, text, calls, steps, steps, budget, budget)
  {
  }

  lemma OneMoreRan(world: World, step: nat, more: nat, text: string, calls: seq<ToolCall>, before: seq<ToolStep>,
                   after: seq<ToolStep>, held: Option<nat>, budget: Option<nat>, next: Option<nat>, taken: ToolStep,
                   cancelled: bool)
    requires Ran(world, step, more, text, calls, before, after, held, budget) && InReplyOrder(after)
    requires |before| <= |after| < |before| + |calls|
    requires var n := |after| - |before|;
             && LetThrough(world, step, n + 1, more, |after|, budget, next)
             && (n > 0 ==> !AnswerCancelled(world, step, n, calls[n - 1]))
             && taken.text == text && taken.index == n + 1 && taken.call == calls[n]
             && Settled(world, step, n + 1, calls[n], taken, cancelled)
             && (cancelled <==> AnswerCancelled(world, step, n + 1, calls[n]))
    ensures Ran(world, step, more, text, calls, before, after + [taken], held, next) && InReplyOrder(after + [taken])
  {
    hide Executed, CallsSettled, WithinBudget, BudgetAfter, Settled, AnswerCancelled, InReplyOrder, LetThrough;
    OneMoreExecuted(text, calls, before, after, taken);
    OneMoreSettled(world, step, calls, before, after, taken, cancelled);
    OneMoreCovered(world, step, more, |before|, held, |after| - |before|, next);
  }

  lemma CutBefore(world: World, step: nat, calls: seq<ToolCall>, n: nat, cancelled: bool, stopped: bool)
    requires n < |calls| && (n > 0 ==> !AnswerCancelled(world, step, n, calls[n - 1]))
    requires world.extendable ==>
               && (cancelled <==> ExtensionOf(world, step, n + 1).None?)
               && (stopped <==> ExtensionOf(world, step, n + 1) == Some(NoMore))
    requires !world.extendable ==> !cancelled && !stopped
    ensures cancelled <==> CutByCancel(world, step, calls, n)
    ensures stopped <==> CutByPerson(world, step, calls, n)
  {
  }

  lemma CutAfter(world: World, step: nat, calls: seq<ToolCall>, n: nat)
    requires 0 < n <= |calls| && AnswerCancelled(world, step, n, calls[n - 1])
    ensures CutByCancel(world, step, calls, n) && !CutByPerson(world, step, calls, n)
  {
  }

  lemma NotCut(world: World, step: nat, calls: seq<ToolCall>)
    requires |calls| > 0 ==> !AnswerCancelled(world, step, |calls|, calls[|calls| - 1])
    ensures !CutByCancel(world, step, calls, |calls|) && !CutByPerson(world, step, calls, |calls|)
  {
  }
}
