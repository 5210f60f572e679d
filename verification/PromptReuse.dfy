/** Where the loop and the window meet: what a turn sent while it ran is what the next prompt
    begins with. */
module PromptReuse {
  import opened Conversation
  import opened Spans
  import opened Window
  import opened PrefixCache
  import opened SharedSpans
  import opened Selection
  import Agent

  lemma {:induction false} VerbatimGrows(steps: seq<ToolStep>, more: seq<ToolStep>)
    requires steps <= more
    ensures Verbatim(steps) <= Verbatim(more)
  {
    if steps == more {
      return;
    }
    var front := more[..|more| - 1];
    assert steps <= front;
    VerbatimGrows(steps, front);
  }

  lemma {:induction false} ExecutedGrows(events: seq<Agent.Event>, i: nat)
    requires i <= |events|
    ensures Agent.ExecutedIn(events[..i]) <= Agent.ExecutedIn(events)
  {
    if i < |events| {
      var front := events[..|events| - 1];
      assert front[..i] == events[..i];
      ExecutedGrows(front, i);
    } else {
      assert events[..i] == events;
    }
  }

  /** Every conversation the loop sent during a turn, at any step and any retry, is a prefix
      of the first prompt of the next turn: nothing the server has cached is cached in vain. */
  lemma EveryCallIsAPrefixOfTheNextPrompt(
      v: Window, w: Window, floor: nat, pruned: nat, system: string, turn: Turn,
      later: seq<Fragment>, prompt: string, more: nat, events: seq<Agent.Event>, i: nat)
    requires floor <= |v.turns| && pruned <= |v.turns|
    requires SameRules(v, w) && w.turns == v.turns + [turn]
    requires JobsStand(v.turns, v.jobs, w.jobs, turn)
    requires v.current == CurrentOf(Carried(v.turns) + turn.code, v.repeat)
    requires w.current == CurrentOf(Carried(w.turns) + later, w.repeat)
    requires v.repeat.Once? ==> OneBodyPerPath(turn.code) && ReadTheSame(v, floor, pruned, turn.code, later)
    requires !Agent.Watch(Prompt(v, floor, pruned, system, turn.code, turn.prompt), more, events).phase.Violated?
    requires turn.steps == Agent.ExecutedIn(events) && i < |events| && events[i].ModelCall?
    ensures events[i].messages <= Prompt(w, floor, pruned, system, later, prompt)
  {
    hide Prompt, CurrentOf, Carried, SameRules, JobsStand, OneBodyPerPath, ReadTheSame, Agent.Watch, Verbatim, Replay,
      Question;
    var asked := Prompt(v, floor, pruned, system, turn.code, turn.prompt);
    NextPromptExtends(v, w, floor, pruned, system, turn, later, prompt);
    KeptResultsAreVerbatim(turn.steps, v.counter);
    Agent.EveryCallReplays(asked, more, events, i);
    ExecutedGrows(events, i);
    VerbatimGrows(Agent.ExecutedIn(events[..i]), turn.steps);
  }
}
