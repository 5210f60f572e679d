/** The calls of a turn as a reader of its announcements has them: each under its step and its
    place, and what a resume makes of them. */
module StepFold {
  import opened Conversation
  import opened SessionView

  /** Which reply of the turn a call is in: each reply's calls are numbered from one. */
  function StepOf(steps: seq<ToolStep>, k: nat): nat
    requires k < |steps|
  {
    (if k == 0 then 0 else StepOf(steps, k - 1)) + if steps[k].index == 1 then 1 else 0
  }

  /** Steps are counted from one, each reply's first call beginning the next. */
  lemma StepsAreCounted(steps: seq<ToolStep>, k: nat)
    requires InReplyOrder(steps) && k < |steps|
    ensures StepOf(steps, 0) == 1
    ensures k > 0 ==> StepOf(steps, k) == StepOf(steps, k - 1) + if steps[k].index == 1 then 1 else 0
  {
  }

  /** The first call of a reply goes out without its place. */
  function AboveOne(index: nat): Option<nat> {
    if index > 1 then Some(index) else None
  }

  function CallViewOf(steps: seq<ToolStep>, k: nat): CallView
    requires k < |steps|
  {
    var s := steps[k];
    CallView(StepOf(steps, k), AboveOne(s.index), s.call, Some(s.outcome.verdict), s.outcome.error, s.outcome.output,
             s.outcome.truncated, s.asked, s.grant)
  }

  function CallViews(steps: seq<ToolStep>, n: nat): (views: seq<CallView>)
    requires n <= |steps|
    ensures |views| == n && forall k | 0 <= k < n :: views[k] == CallViewOf(steps, k)
  {
    if n == 0 then [] else CallViews(steps, n - 1) + [CallViewOf(steps, n - 1)]
  }

  function Made(turn: TurnId, steps: seq<ToolStep>, k: nat): ServerMessage
    requires k < |steps|
  {
    CallMade(turn, StepOf(steps, k), AboveOne(steps[k].index), steps[k].call)
  }

  function Back(turn: TurnId, steps: seq<ToolStep>, k: nat): ServerMessage
    requires k < |steps|
  {
    CallAnswered(turn, StepOf(steps, k), AboveOne(steps[k].index), steps[k].outcome, steps[k].asked, steps[k].grant)
  }

  /** Each call announced, and then its result, before the next. */
  function Told(turn: TurnId, steps: seq<ToolStep>, n: nat): seq<ServerMessage>
    requires n <= |steps|
  {
    if n == 0 then [] else Told(turn, steps, n - 1) + [Made(turn, steps, n - 1), Back(turn, steps, n - 1)]
  }

  // --------------------------------------------------------------------- no two calls share a place

  lemma {:induction false} PlacesBetween(steps: seq<ToolStep>, i: nat, k: nat)
    requires InReplyOrder(steps) && i <= k < |steps|
    ensures StepOf(steps, i) <= StepOf(steps, k)
    ensures StepOf(steps, i) == StepOf(steps, k) ==> steps[k].index == steps[i].index + (k - i)
  {
    if i < k {
      PlacesBetween(steps, i, k - 1);
    }
  }

  lemma {:induction false} PlacesArePositive(steps: seq<ToolStep>, k: nat)
    requires InReplyOrder(steps) && k < |steps|
    ensures steps[k].index >= 1 && AboveOne(steps[k].index).GetOr(1) == steps[k].index
  {
    if steps[k].index != 1 {
      PlacesArePositive(steps, k - 1);
    }
  }

  /** Among the calls before it, nothing stands at the place of call `n`. */
  lemma CallIsNew(steps: seq<ToolStep>, n: nat)
    requires InReplyOrder(steps) && n < |steps|
    ensures CallAt(CallViews(steps, n), StepOf(steps, n), AboveOne(steps[n].index)) == n
  {
    var i := CallAt(CallViews(steps, n), StepOf(steps, n), AboveOne(steps[n].index));
    PlacesArePositive(steps, n);
    if i < n {
      PlacesArePositive(steps, i);
      PlacesBetween(steps, i, n);
    }
  }

  function MadeAndBack(tools: seq<CallView>, step: nat, s: ToolStep): seq<CallView> {
    CameBack(Called(tools, step, AboveOne(s.index), s.call), step, AboveOne(s.index), s.outcome, s.asked, s.grant)
  }

  /** A call announced and answered is one more call, as it ran. */
  lemma OneMoreCall(steps: seq<ToolStep>, n: nat)
    requires InReplyOrder(steps) && n < |steps|
    ensures MadeAndBack(CallViews(steps, n), StepOf(steps, n), steps[n]) == CallViews(steps, n + 1)
  {
    hide StepOf;
    var step, index, s := StepOf(steps, n), AboveOne(steps[n].index), steps[n];
    CallIsNew(steps, n);
    var before := CallViews(steps, n);
    var made := Called(before, step, index, s.call);
    assert made == before + [CallView(step, index, s.call, None, None, "", false, None, None)];
    var i := CallAt(made, step, index);
    if i < n {
      assert made[i] == before[i];
      NotEarlier(before, step, index, i);
    }
  }

  lemma NotEarlier(tools: seq<CallView>, step: nat, index: Option<nat>, i: nat)
    requires i < |tools| && tools[i].step == step && tools[i].index.GetOr(1) == index.GetOr(1)
    ensures CallAt(tools, step, index) <= i
  {
  }

  // ------------------------------------------------------------------------------------ the fold

  function WithTools(v: View, t: nat, tools: seq<CallView>): View
    requires t < |v.turns|
  {
    v.(turns := v.turns[t := v.turns[t].(tools := tools)])
  }

  lemma SamePlace(v: View, t: nat, tools: seq<CallView>, id: TurnId)
    requires t < |v.turns| && TurnAt(v.turns, id) == t
    ensures TurnAt(WithTools(v, t, tools).turns, id) == t
  {
    var after := WithTools(v, t, tools).turns;
    assert forall k | 0 <= k < |after| :: after[k].turn == v.turns[k].turn;
  }

  /** Folding what a turn announced of its calls gives it those calls, in order, as they ran. */
  lemma {:induction false} TellingShows(v: View, t: nat, id: TurnId, steps: seq<ToolStep>, n: nat)
    requires InReplyOrder(steps) && n <= |steps|
    requires t < |v.turns| && TurnAt(v.turns, id) == t && v.turns[t].tools == []
    ensures AppliedAll(v, Told(id, steps, n)) == WithTools(v, t, CallViews(steps, n))
  {
    hide TurnAt, MadeAndBack, StepOf, Applied, WithTools, CallViews;
    if n == 0 {
      NothingTold(v, t);
    } else {
      var tools := CallViews(steps, n - 1);
      TellingShows(v, t, id, steps, n - 1);
      AppliedAllAppend(v, Told(id, steps, n - 1), [Made(id, steps, n - 1), Back(id, steps, n - 1)]);
      AppliedTwo(WithTools(v, t, tools), Made(id, steps, n - 1), Back(id, steps, n - 1));
      OneCallTold(v, t, id, tools, StepOf(steps, n - 1), steps[n - 1]);
      OneMoreCall(steps, n - 1);
    }
  }

  lemma NothingTold(v: View, t: nat)
    requires t < |v.turns| && v.turns[t].tools == []
    ensures WithTools(v, t, []) == v && CallViews([], 0) == []
    ensures forall steps: seq<ToolStep> :: CallViews(steps, 0) == []
  {
    assert v.turns[t := v.turns[t].(tools := [])] == v.turns;
  }

  lemma OneCallTold(v: View, t: nat, id: TurnId, tools: seq<CallView>, step: nat, s: ToolStep)
    requires t < |v.turns| && TurnAt(v.turns, id) == t
    ensures Applied(Applied(WithTools(v, t, tools), CallMade(id, step, AboveOne(s.index), s.call)),
                    CallAnswered(id, step, AboveOne(s.index), s.outcome, s.asked, s.grant))
         == WithTools(v, t, MadeAndBack(tools, step, s))
  {
    hide TurnAt, Called, CameBack;
    var made := Called(tools, step, AboveOne(s.index), s.call);
    SamePlace(v, t, tools, id);
    SamePlace(v, t, made, id);
    ToolsAgain(v, t, tools, made);
    ToolsAgain(v, t, made, MadeAndBack(tools, step, s));
  }

  lemma ToolsAgain(v: View, t: nat, tools: seq<CallView>, later: seq<CallView>)
    requires t < |v.turns|
    ensures WithTools(WithTools(v, t, tools), t, later) == WithTools(v, t, later)
    ensures WithTools(v, t, tools).turns[t].tools == tools
  {
  }

  lemma AppliedTwo(v: View, a: ServerMessage, b: ServerMessage)
    ensures AppliedAll(v, [a, b]) == Applied(Applied(v, a), b)
  {
    assert [a, b] == [a] + [b];
    AppliedAllAppend(v, [a], [b]);
    AppliedOne(v, a);
    AppliedOne(Applied(v, a), b);
  }

  /** A resume gives back every call as it ran, but for the words that were around it. */
  lemma StepsComeBack(steps: seq<ToolStep>, wire: Wire, k: nat)
    requires InReplyOrder(steps) && k < |steps|
    ensures RestoredSteps(CallViews(steps, |steps|), wire)[k] == steps[k].(text := Refenced(wire, steps[k].call))
  {
    PlacesArePositive(steps, k);
  }
}
