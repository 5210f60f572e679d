/** The prompt cache: between two calls that move neither ratchet, the second prompt is
    the first one with what was said since appended. */
module PrefixCache {
  import opened Conversation
  import opened Spans
  import opened Jobs
  import opened Window
  import opened Render
  import opened SharedSpans
  import opened Selection
  import opened Lifecycle

  predicate SameStanding(v: Window, w: Window, f: Fragment) {
    v.current.Superseded(f) == w.current.Superseded(f)
  }

  lemma {:induction false} SameSpansText(code: seq<Fragment>, a: Look, b: Look, c: TokenCounter)
    requires forall f | f in code :: SpanText(f, a, c) == SpanText(f, b, c)
    ensures SpansText(code, a, c) == SpansText(code, b, c)
  {
    if code != [] {
      assert code[0] in code;
      SameSpansText(code[1..], a, b, c);
    }
  }

  lemma {:induction false} RunEndUnmoved(turns: seq<Turn>, turn: Turn, index: nat, job: JobId)
    requires index <= |turns| && turn.job != job
    ensures RunEnd(turns + [turn], index, job) == RunEnd(turns, index, job)
    decreases |turns| - index
  {
    if index < |turns| && turns[index].job == job {
      RunEndUnmoved(turns, turn, index + 1, job);
    }
  }

  /** The jobs of the history stand as they stood; the turn landed in one that is open. */
  predicate JobsStand(turns: seq<Turn>, jobs: seq<Job>, after: seq<Job>, turn: Turn) {
    && !ClosedJob(after, turn.job)
    && forall i | 0 <= i < |turns| :: FindJob(after, turns[i].job) == FindJob(jobs, turns[i].job)
  }

  /** A turn lands in the open job or in a draft of its own; either way the jobs of the
      turns before it stand as they stood. */
  lemma LandingDisturbsNothing(l: Ledger, turn: Turn)
    requires Alternates(l) && turn.job == LandingJob(l.jobs)
    ensures JobsStand(l.turns, l.jobs, Push(l, turn).jobs, turn)
  {
    PushKeeps(l, turn);
    forall i | 0 <= i < |l.turns| ensures FindJob(Push(l, turn).jobs, l.turns[i].job) == FindJob(l.jobs, l.turns[i].job) {
      FindIsPosition(l.jobs, l.turns[i].job);
      FindIsPosition(Push(l, turn).jobs, l.turns[i].job);
    }
  }

  /** A pushed turn is one more live item at the end. */
  lemma {:induction false} PushedItems(turns: seq<Turn>, jobs: seq<Job>, after: seq<Job>, turn: Turn, floor: nat)
    requires floor <= |turns| && JobsStand(turns, jobs, after, turn)
    ensures ItemsFrom(turns + [turn], after, floor) == ItemsFrom(turns, jobs, floor) + [Live(|turns|)]
    decreases |turns| - floor
  {
    var all := turns + [turn];
    if floor == |turns| {
      assert all[floor] == turn;
      assert ItemsFrom(all, after, floor + 1) == [];
    } else {
      var job := turns[floor].job;
      assert all[floor] == turns[floor];
      if ClosedJob(jobs, job) {
        RunEndUnmoved(turns, turn, floor + 1, job);
        PushedItems(turns, jobs, after, turn, RunEnd(turns, floor + 1, job));
      } else {
        PushedItems(turns, jobs, after, turn, floor + 1);
      }
    }
  }

  ghost predicate SameRules(v: Window, w: Window) {
    v.counter == w.counter && v.repeat == w.repeat && v.results == w.results
  }

  lemma {:induction false} FoldsAreOfTurns(turns: seq<Turn>, jobs: seq<Job>, floor: nat, item: Item)
    requires item in ItemsFrom(turns, jobs, floor) && item.Folded?
    ensures item.first < |turns| && turns[item.first].job == item.job
    decreases |turns| - floor
  {
    var job := turns[floor].job;
    if item != ItemsFrom(turns, jobs, floor)[0] {
      FoldsAreOfTurns(turns, jobs, if ClosedJob(jobs, job) then RunEnd(turns, floor + 1, job) else floor + 1, item);
    }
  }

  /** Rendering the same items again gives the same bytes, as long as no span of theirs
      above the line changed its standing. */
  lemma {:induction false} SameHistory(v: Window, w: Window, items: seq<Item>, pruned: nat)
    requires v.Holds(items) && SameRules(v, w) && v.turns <= w.turns
    requires forall item | item in items && item.Folded? :: FindJob(v.jobs, item.job) == FindJob(w.jobs, item.job)
    requires forall item, f | item in items && item.Live? && item.index >= pruned && f in v.turns[item.index].code ::
               SameStanding(v, w, f)
    ensures w.Holds(items)
    ensures w.AllBodies(items, pruned) == v.AllBodies(items, pruned)
    ensures HistoryMessages(w, items, pruned) == HistoryMessages(v, items, pruned)
  {
    forall i | 0 <= i < |items| ensures items[i].Live? ==> items[i].index < |w.turns| {}
    if items != [] {
      var front, last := items[..|items| - 1], items[|items| - 1];
      assert last in items;
      forall item | item in front ensures item in items {}
      SameHistory(v, w, front, pruned);
      if last.Live? {
        assert w.turns[last.index] == v.turns[last.index];
        if last.index >= pruned {
          var turn := v.turns[last.index];
          var kept := KeptSpans(v.repeat, turn.code, ShownBy(v, front, pruned));
          FreshSpans(turn.code, ShownBy(v, front, pruned));
          forall f | f in kept ensures SpanText(f, Shown(v.current), v.counter) == SpanText(f, Shown(w.current), v.counter) {
            assert f in v.turns[last.index].code;
            assert SameStanding(v, w, f);
          }
          SameSpansText(kept, Shown(v.current), Shown(w.current), v.counter);
        }
      }
    }
  }

  /** No span in the window, nor of the turn just asked, was read again with other bytes. */
  ghost predicate ReadTheSame(v: Window, floor: nat, pruned: nat, code: seq<Fragment>, later: seq<Fragment>)
  {
    forall f, g | (f in code || OnScreen(v, floor, pruned, f)) && g in later && g.path == f.path ::
      NewestBody(Carried(v.turns) + code, f.path) == Some(g.text)
  }

  ghost predicate OnScreen(v: Window, floor: nat, pruned: nat, f: Fragment) {
    exists i | floor <= i < |v.turns| && pruned <= i :: f in v.turns[i].code
  }

  lemma StandingUnchanged(v: Window, w: Window, code: seq<Fragment>, later: seq<Fragment>, f: Fragment)
    requires SameRules(v, w)
    requires v.current == CurrentOf(Carried(v.turns) + code, v.repeat)
    requires w.current == CurrentOf(Carried(v.turns) + code + later, w.repeat)
    requires forall g | g in later && g.path == f.path :: NewestBody(Carried(v.turns) + code, f.path) == Some(g.text)
    ensures SameStanding(v, w, f)
  {
    var carried := Carried(v.turns) + code;
    SupersededMeansStale(carried, f);
    SupersededMeansStale(carried + later, f);
    NewestBodyAppend(carried, later, f.path);
    NewestIsThere(later, f.path);
  }

  /** Cache-prefix stability. `v` is the session when `turn` was asked and `w` the session
      after it was pushed, both rendered from the same floor and line: the second prompt is
      the first, then the turn's exchanges and its answer, then the new question. */
  lemma NextPromptExtends(v: Window, w: Window, floor: nat, pruned: nat, system: string,
                          turn: Turn, later: seq<Fragment>, prompt: string)
    requires floor <= |v.turns| && pruned <= |v.turns|
    requires SameRules(v, w) && w.turns == v.turns + [turn]
    requires JobsStand(v.turns, v.jobs, w.jobs, turn)
    requires v.current == CurrentOf(Carried(v.turns) + turn.code, v.repeat)
    requires w.current == CurrentOf(Carried(w.turns) + later, w.repeat)
    requires v.repeat.Once? ==> OneBodyPerPath(turn.code) && ReadTheSame(v, floor, pruned, turn.code, later)
    ensures Prompt(w, floor, pruned, system, later, prompt)
         == Prompt(v, floor, pruned, system, turn.code, turn.prompt)
            + Replay(turn.steps, Kept, v.counter) + [Message(Assistant, turn.answer)]
            + [Question(w, floor, pruned, later, prompt)]
  {
    var items := v.Items(floor);
    PushedItems(v.turns, v.jobs, w.jobs, turn, floor);
    assert Carried(w.turns) == Carried(v.turns) + turn.code by { assert w.turns[..|v.turns|] == v.turns; }
    HistoryStands(v, w, floor, pruned, turn, later);
    ThePushedTurn(v, w, floor, pruned, turn, later);
    OneMoreItem(w, items, |v.turns|, pruned);
    Appended(Message(System, system), HistoryMessages(v, items, pruned),
             Question(v, floor, pruned, turn.code, turn.prompt), Replay(turn.steps, Kept, v.counter),
             Message(Assistant, turn.answer), Question(w, floor, pruned, later, prompt));
  }

  lemma Appended(head: Message, history: seq<Message>, question: Message, steps: seq<Message>,
                 answer: Message, next: Message)
    ensures [head] + (history + ([question] + steps + [answer])) + [next]
         == [head] + history + [question] + steps + [answer] + [next]
  {
    assert history + ([question] + steps + [answer]) == history + [question] + steps + [answer];
  }

  lemma OneMoreItem(w: Window, items: seq<Item>, i: nat, pruned: nat)
    requires w.Holds(items) && pruned <= i < |w.turns|
    ensures w.Holds(items + [Live(i)])
    ensures HistoryMessages(w, items + [Live(i)], pruned) == HistoryMessages(w, items, pruned)
      + LiveMessages(w, w.turns[i], KeptSpans(w.repeat, w.turns[i].code, ShownBy(w, items, pruned)))
  {
    var all := items + [Live(i)];
    assert all[..|all| - 1] == items;
  }

  lemma HistoryStands(v: Window, w: Window, floor: nat, pruned: nat, turn: Turn, later: seq<Fragment>)
    requires floor <= |v.turns| && pruned <= |v.turns|
    requires SameRules(v, w) && w.turns == v.turns + [turn]
    requires JobsStand(v.turns, v.jobs, w.jobs, turn)
    requires v.current == CurrentOf(Carried(v.turns) + turn.code, v.repeat)
    requires w.current == CurrentOf(Carried(v.turns) + turn.code + later, w.repeat)
    requires v.repeat.Once? ==> ReadTheSame(v, floor, pruned, turn.code, later)
    ensures w.Holds(v.Items(floor))
    ensures w.AllBodies(v.Items(floor), pruned) == v.AllBodies(v.Items(floor), pruned)
    ensures HistoryMessages(w, v.Items(floor), pruned) == HistoryMessages(v, v.Items(floor), pruned)
  {
    var items := v.Items(floor);
    forall item | item in items && item.Folded? ensures FindJob(v.jobs, item.job) == FindJob(w.jobs, item.job) {
      FoldsAreOfTurns(v.turns, v.jobs, floor, item);
    }
    ItemsHold(v.turns, v.jobs, floor);
    forall item, f | item in items && item.Live? && item.index >= pruned && f in v.turns[item.index].code
      ensures SameStanding(v, w, f)
    {
      if v.repeat.Once? {
        assert floor <= item.First();
        assert OnScreen(v, floor, pruned, f);
        StandingUnchanged(v, w, turn.code, later, f);
      }
    }
    SameHistory(v, w, items, pruned);
  }

  /** The turn just pushed renders as the question it was. */
  lemma ThePushedTurn(v: Window, w: Window, floor: nat, pruned: nat, turn: Turn, later: seq<Fragment>)
    requires SameRules(v, w) && w.turns == v.turns + [turn]
    requires v.current == CurrentOf(Carried(v.turns) + turn.code, v.repeat)
    requires w.current == CurrentOf(Carried(v.turns) + turn.code + later, w.repeat)
    requires v.repeat.Once? ==> OneBodyPerPath(turn.code) && ReadTheSame(v, floor, pruned, turn.code, later)
    ensures var kept := QuestionSpans(v, floor, pruned, turn.code);
            UserText(kept, Shown(w.current), turn.prompt, v.counter) == UserText(kept, Bytes, turn.prompt, v.counter)
  {
    var kept := QuestionSpans(v, floor, pruned, turn.code);
    FreshSpans(turn.code, ShownBy(v, v.Items(floor), pruned));
    forall f | f in kept ensures SpanText(f, Shown(w.current), v.counter) == SpanText(f, Bytes, v.counter) {
      if v.repeat.Once? {
        StandingUnchanged(v, w, turn.code, later, f);
        TheQuestionIsCurrent(v.turns, turn.code, f);
        SupersededMeansStale(Carried(v.turns) + turn.code, f);
      }
    }
    SameSpansText(kept, Shown(w.current), Bytes, v.counter);
  }
}
