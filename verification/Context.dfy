/** The session as it is kept and changed in place, every method against the specification
    the other modules prove things of. */
module ContextManager {
  import opened Conversation
  import opened Spans
  import opened Jobs
  import opened Window
  import opened Walks
  import opened Render
  import opened SharedSpans
  import opened Selection
  import opened Decision
  import opened OwnTurns
  import opened Lifecycle
  import opened PrefixCache
  import opened Reports
  import opened SystemBlock

  datatype Selected = Selected(
    messages: seq<Message>, buckets: Buckets, limit: Option<nat>, counter: CounterId,
    evicted: nat, pruned: nat, eviction: Option<Evicted>, pruning: Option<PruneReport>,
    repeating: Option<Repeated>, diverged: seq<Tally>, superseded: seq<Superseded>)

  datatype Approval = Approval(job: JobId, folded: Option<(JobId, string)>)

  /** `Context.Current.of`: one entry overwritten in place, or one more at the end. */
  method NoteBody(bodies: seq<(string, string)>, f: Fragment) returns (after: seq<(string, string)>)
    ensures after == Noted(bodies, f)
  {
    var k := 0;
    while k < |bodies| && bodies[k].0 != f.path
      invariant 0 <= k <= |bodies|
      invariant Noted(bodies, f) == bodies[..k] + Noted(bodies[k..], f)
    {
      k := k + 1;
    }
    if k < |bodies| {
      after := bodies[k := (f.path, f.text)];
    } else {
      after := bodies + [(f.path, f.text)];
    }
  }

  method NoteBodies(bodies: seq<(string, string)>, ghost before: seq<Fragment>, code: seq<Fragment>)
    returns (after: seq<(string, string)>)
    requires bodies == NotedAll(before)
    ensures after == NotedAll(before + code)
  {
    hide Noted;
    after := bodies;
    assert before + code[..0] == before;
    for i := 0 to |code|
      invariant after == NotedAll(before + code[..i])
    {
      assert (before + code[..i + 1])[..|before| + i] == before + code[..i];
      after := NoteBody(after, code[i]);
    }
    assert code[..|code|] == code;
  }

  /** The inner loop of both walks: what is already on the screen, and what the copies of
      it would have cost here. */
  method Claim(w: Window, code: seq<Fragment>, shown: set<Fragment>) returns (copies: nat, after: set<Fragment>)
    ensures copies == w.Copies(code, shown) && after == shown + SetOf(code)
  {
    copies, after := 0, shown;
    for i := 0 to |code|
      invariant w.Copies(code, shown) == copies + w.Copies(code[i..], after)
      invariant after == shown + SetOf(code[..i])
    {
      if code[i] in after {
        copies := copies + SpanTokens(code[i], Shown(w.current), w.counter);
      }
      after := after + {code[i]};
    }
  }

  /** `split_shown`: what a turn renders, and what this prompt already shows for it. */
  method SplitShown(code: seq<Fragment>, shown: set<Fragment>, repeat: Repeat)
    returns (kept: seq<Fragment>, dropped: seq<Fragment>, after: set<Fragment>)
    ensures kept == KeptSpans(repeat, code, shown) && dropped == DroppedSpans(repeat, code, shown)
    ensures after == if repeat.Once? then shown + SetOf(code) else shown
  {
    kept, dropped, after := [], [], shown;
    if repeat.Always? {
      return code, [], shown;
    }
    for i := 0 to |code|
      invariant Fresh(code, shown) == kept + Fresh(code[i..], after)
      invariant Repeats(code, shown) == dropped + Repeats(code[i..], after)
      invariant after == shown + SetOf(code[..i])
    {
      if code[i] in after {
        dropped := dropped + [code[i]];
        assert after + {code[i]} == after;
      } else {
        kept := kept + [code[i]];
        after := after + {code[i]};
      }
    }
  }

  /** `diverged_paths`: every path's tally first, then the ones with two bodies. */
  method Diverge(sent: seq<SentBody>) returns (report: seq<Tally>)
    ensures report == DivergedPaths(sent)
  {
    var tallies := [];
    for i := 0 to |sent|
      invariant tallies == Tallies(sent[..i])
    {
      assert sent[..i + 1][..i] == sent[..i];
      tallies := Noting(tallies, sent[i]);
    }
    assert sent[..|sent|] == sent;
    report := KeepDiverging(tallies);
  }

  method KeepDiverging(tallies: seq<Tally>) returns (report: seq<Tally>)
    ensures report == Diverging(tallies)
  {
    report := [];
    for i := 0 to |tallies|
      invariant Diverging(tallies) == report + Diverging(tallies[i..])
    {
      assert tallies[i..] == [tallies[i]] + tallies[i + 1..];
      if |tallies[i].bodies| > 1 {
        report := report + [tallies[i]];
      }
    }
  }

  /** What a walk adds for one item: its tokens, less the spans another item already pays for. */
  method Charge(w: Window, item: Item, line: nat, shown: set<Fragment>) returns (tokens: int, after: set<Fragment>)
    requires item.Live? ==> item.index < |w.turns|
    ensures tokens == w.ItemTokens(item, line) - w.Copies(w.Bodies(item, line), shown)
    ensures after == shown + SetOf(w.Bodies(item, line))
  {
    hide Window.ItemTokens, SpanTokens;
    tokens, after := w.ItemTokens(item, line), shown;
    if w.repeat.Once? && item.Live? && item.index >= line {
      var copies;
      copies, after := Claim(w, w.turns[item.index].code, shown);
      tokens := tokens - copies;
    }
  }

  lemma NothingYet(w: Window, line: nat)
    ensures w.Cost([], line) == 0 && ShownBy(w, [], line) == {}
  {
  }

  lemma ForwardStep(w: Window, items: seq<Item>, i: nat, line: nat)
    requires i < |items| && w.Holds(items)
    ensures w.Holds(items[..i]) && w.Holds(items[..i + 1])
    ensures w.Cost(items[..i + 1], line) == w.Cost(items[..i], line) + w.ItemTokens(items[i], line)
              - w.Copies(w.Bodies(items[i], line), ShownBy(w, items[..i], line))
    ensures ShownBy(w, items[..i + 1], line) == ShownBy(w, items[..i], line) + SetOf(w.Bodies(items[i], line))
  {
    hide Window.ItemTokens, Window.Bodies, Window.Copies;
    assert items[..i + 1][..i] == items[..i];
  }

  /** One item of the history, as it goes out: what it says, what it adds to each bucket,
      what is on the screen after it, and the bodies it sends. */
  method RenderItem(w: Window, item: Item, pruned: nat, before: set<Fragment>)
    returns (messages: seq<Message>, history: nat, summaries: nat, shown: set<Fragment>, sent: seq<SentBody>,
             dropped: seq<Fragment>, cited: seq<CitedSpan>)
    requires item.Live? ==> item.index < |w.turns|
    ensures messages == ItemMessages(w, item, pruned, before) && history == ItemHistory(w, item, pruned, before)
    ensures summaries == if item.Folded? then w.ItemTokens(item, pruned) else 0
    ensures shown == ItemShown(w, item, pruned, before) && sent == ItemBodies(w, item, pruned, before)
    ensures dropped == ItemDropped(w, item, pruned, before) && cited == ItemCited(w, item, pruned, before)
  {
    hide LiveMessages, PrunedMessages, FoldMessages, BodiesSent, CitedSpans, SpansTokens, KeptSpans, DroppedSpans,
      Window.ItemTokens;
    messages, history, summaries, shown, sent, dropped, cited := [], 0, 0, before, [], [], [];
    var tokens := w.ItemTokens(item, pruned);
    match item {
      case Live(index) =>
        var turn := w.turns[index];
        if index < pruned {
          history := tokens;
          messages := PrunedMessages(w, turn);
        } else {
          var kept;
          kept, dropped, shown := SplitShown(turn.code, before, w.repeat);
          history := SatSub(tokens, SpansTokens(dropped, Shown(w.current), w.counter));
          sent, cited := BodiesSent(w, kept, turn.id), CitedSpans(w, kept, turn.id);
          messages := LiveMessages(w, turn, kept);
        }
      case Folded(job, _) =>
        summaries := tokens;
        messages := FoldMessages(w, job);
    }
  }

  function ItemBodies(w: Window, item: Item, pruned: nat, shown: set<Fragment>): seq<SentBody>
    requires item.Live? ==> item.index < |w.turns|
  {
    if item.Live? && item.index >= pruned
    then BodiesSent(w, KeptSpans(w.repeat, w.turns[item.index].code, shown), w.turns[item.index].id)
    else []
  }

  function ItemShown(w: Window, item: Item, pruned: nat, shown: set<Fragment>): set<Fragment>
    requires item.Live? ==> item.index < |w.turns|
  {
    if item.Live? && item.index >= pruned && w.repeat.Once? then shown + SetOf(w.turns[item.index].code) else shown
  }

  lemma NoItems(w: Window, pruned: nat)
    ensures HistoryMessages(w, [], pruned) == [] && HistoryBucket(w, [], pruned) == SummariesBucket(w, [], pruned) == 0
    ensures ShownBy(w, [], pruned) == {} && SentByHistory(w, [], pruned) == []
    ensures KeptOutBy(w, [], pruned) == KeptOut([], 0, 0) && CitedBy(w, [], pruned) == []
  {
  }

  lemma OneItemMore(w: Window, items: seq<Item>, i: nat, pruned: nat)
    requires i < |items| && w.Holds(items)
    ensures w.Holds(items[..i]) && w.Holds(items[..i + 1])
    ensures var shown, item := ShownBy(w, items[..i], pruned), items[i];
      && HistoryMessages(w, items[..i + 1], pruned)
         == HistoryMessages(w, items[..i], pruned) + ItemMessages(w, item, pruned, shown)
      && HistoryBucket(w, items[..i + 1], pruned)
         == HistoryBucket(w, items[..i], pruned) + ItemHistory(w, item, pruned, shown)
      && SummariesBucket(w, items[..i + 1], pruned)
         == SummariesBucket(w, items[..i], pruned) + (if item.Folded? then w.ItemTokens(item, pruned) else 0)
      && ShownBy(w, items[..i + 1], pruned) == ItemShown(w, item, pruned, shown)
      && SentByHistory(w, items[..i + 1], pruned)
         == SentByHistory(w, items[..i], pruned) + ItemBodies(w, item, pruned, shown)
      && KeptOutBy(w, items[..i + 1], pruned)
         == WithDropped(w, KeptOutBy(w, items[..i], pruned), item, ItemDropped(w, item, pruned, shown))
      && CitedBy(w, items[..i + 1], pruned) == CitedBy(w, items[..i], pruned) + ItemCited(w, item, pruned, shown)
  {
    hide ItemMessages, ItemHistory, BodiesSent, KeptSpans, Window.ItemTokens, WithDropped, ItemDropped, ItemCited;
    assert items[..i + 1][..i] == items[..i];
  }

  /** `note_superseded`: the path's entry updated in place, or one more at the end. */
  method NoteCitation(before: seq<Superseded>, cited: CitedSpan, c: TokenCounter) returns (report: seq<Superseded>)
    ensures report == NotedCitation(before, cited, c)
  {
    hide WithCited;
    var k := 0;
    while k < |before| && before[k].path != cited.fragment.path
      invariant 0 <= k <= |before|
      invariant NotedCitation(before, cited, c) == before[..k] + NotedCitation(before[k..], cited, c)
    {
      k := k + 1;
    }
    if k < |before| {
      report := before[k := WithCited(before[k], cited, c)];
    } else {
      report := before + [WithCited(Unreported(cited.fragment.path, c), cited, c)];
    }
  }

  method NoteCitations(before: seq<Superseded>, ghost noted: seq<CitedSpan>, cited: seq<CitedSpan>, c: TokenCounter)
    returns (report: seq<Superseded>)
    requires before == SupersededReport(noted, c)
    ensures report == SupersededReport(noted + cited, c)
  {
    hide NotedCitation;
    report := before;
    assert noted + cited[..0] == noted;
    for i := 0 to |cited|
      invariant report == SupersededReport(noted + cited[..i], c)
    {
      assert (noted + cited[..i + 1])[..|noted| + i] == noted + cited[..i];
      report := NoteCitation(report, cited[i], c);
    }
    assert cited[..|cited|] == cited;
  }

  lemma NothingSuperseded(c: TokenCounter)
    ensures SupersededReport([], c) == []
  {
  }

  class Context {
    var system: string
    var tools: string
    var toolsNative: bool
    var outline: string
    var turns: seq<Turn>
    var floor: nat
    var pruned: nat
    var cited: Results
    var resending: Repeat
    var authorityNote: Option<string>
    var jobs: seq<Job>
    var rounds: seq<Round>

    /** Both ratchets point into the session. */
    predicate Ratchets()
      reads `floor, `pruned, `turns
    {
      floor <= |turns| && pruned <= |turns|
    }

    /** And its jobs alternate, which no selection touches. */
    ghost predicate Valid()
      reads `floor, `pruned, `turns, `jobs, `rounds
    {
      Ratchets() && Alternates(Contents())
    }

    function Contents(): Ledger
      reads `turns, `jobs, `rounds
    {
      Ledger(turns, jobs, rounds)
    }

    /** The session as a selection prices it. */
    function Priced(counter: TokenCounter, repeat: Repeat, results: Results, current: Current): Window
      reads `turns, `jobs
    {
      Window(turns, jobs, counter, repeat, results, current)
    }

    /** The window a question with these spans is decided and rendered against. */
    function Asked(code: seq<Fragment>, budget: Budget, counter: TokenCounter): Window
      reads `turns, `jobs
    {
      Priced(counter, budget.repeat, budget.results, CurrentOf(Carried(turns) + code, budget.repeat))
    }

    constructor (system: string)
      ensures Valid() && Contents() == Ledger([], [], []) && floor == pruned == 0
      ensures this.system == system && tools == outline == "" && !toolsNative && authorityNote == None
    {
      this.system := system;
      tools, toolsNative, outline := "", false, "";
      turns, floor, pruned := [], 0, 0;
      cited, resending, authorityNote := Results.Kept, Always, None;
      jobs, rounds := [], [];
    }

    function SystemBlocks(): seq<string>
      reads `tools, `toolsNative, `outline, `authorityNote
    {
      Blocks(tools, toolsNative, outline, authorityNote)
    }

    /** The system message. The native transport leaves the tools out, and the note on
        authority comes last, because it is what changes. */
    function SystemMessage(): string
      reads `system, `tools, `toolsNative, `outline, `authorityNote
    {
      WithBlocks(system, SystemBlocks())
    }

    /** Every bucket but the history's, before anything is decided. */
    function AskedBuckets(code: seq<Fragment>, prompt: string, budget: Budget, counter: TokenCounter): Buckets
      reads `system, `tools, `outline, `authorityNote
    {
      FixedBuckets(system, authorityNote, tools, outline, code, prompt, Headroom(budget), counter)
    }

    method ItemsOf(from: nat) returns (items: seq<Item>)
      ensures items == ItemsFrom(turns, jobs, from)
    {
      items := [];
      var index := from;
      while index < |turns|
        invariant ItemsFrom(turns, jobs, from) == items + ItemsFrom(turns, jobs, index)
        decreases |turns| - index
      {
        var job := turns[index].job;
        if ClosedJob(jobs, job) {
          var first := index;
          index := index + 1;
          while index < |turns| && turns[index].job == job
            invariant first < index <= |turns|
            invariant RunEnd(turns, first + 1, job) == RunEnd(turns, index, job)
          {
            index := index + 1;
          }
          items := items + [Folded(job, first)];
        } else {
          items := items + [Live(index)];
          index := index + 1;
        }
      }
    }

    method CurrentBodies(asking: seq<Fragment>, repeat: Repeat) returns (current: Current)
      ensures current == CurrentOf(Carried(turns) + asking, repeat)
    {
      if repeat.Always? {
        return Current([]);
      }
      var bodies := [];
      for i := 0 to |turns|
        invariant bodies == NotedAll(Carried(turns[..i]))
      {
        assert turns[..i + 1][..i] == turns[..i];
        bodies := NoteBodies(bodies, Carried(turns[..i]), turns[i].code);
      }
      assert turns[..|turns|] == turns;
      bodies := NoteBodies(bodies, Carried(turns), asking);
      current := Current(bodies);
    }

    /** The backward walk: newest item first, stopping at the first that does not fit. */
    method FitsFrom(available: nat, counter: TokenCounter, repeat: Repeat, line: nat, results: Results, current: Current)
      returns (start: nat)
      ensures start == Priced(counter, repeat, results, current).FitsFrom(floor, available, line)
    {
      hide Window.SuffixCost, SuffixShown, Window.ItemTokens, Window.Copies, Window.Bodies, ItemsFrom;
      var w := Priced(counter, repeat, results, current);
      var items := ItemsOf(floor);
      ItemsHold(turns, jobs, floor);
      var spent: int := 0;
      var rendered: set<Fragment> := {};
      start := |turns|;
      var i := |items|;
      EmptySuffix(w, items, line);
      while i > 0
        invariant 0 <= i <= |items| && w.Holds(items)
        invariant spent == w.SuffixCost(items, i, line)
        invariant rendered == SuffixShown(w, items, i, line)
        invariant start == StartOf(items, i, |turns|)
        invariant w.FitIndex(items, available, line, |items|) == w.FitIndex(items, available, line, i)
      {
        BackwardStep(w, items, i, line);
        BackwardShown(w, items, i, line);
        var item := items[i - 1];
        var tokens;
        tokens, rendered := Charge(w, item, line, rendered);
        if spent + tokens > available {
          return;
        }
        spent := spent + tokens;
        i := i - 1;
        start := item.First();
      }
    }

    /** The forward walk: what the window from `from` costs under the rule in force. */
    method WindowTokens(from: nat, counter: TokenCounter, repeat: Repeat, line: nat, results: Results, current: Current)
      returns (cost: nat)
      ensures cost == Priced(counter, repeat, results, current).WindowTokens(from, line)
    {
      hide Window.ItemTokens, Window.Copies, Window.Bodies, Window.Cost, ShownBy, ItemsFrom;
      var w := Priced(counter, repeat, results, current);
      var items := ItemsOf(from);
      ItemsHold(turns, jobs, from);
      var total: int := 0;
      var shown: set<Fragment> := {};
      NothingYet(w, line);
      for i := 0 to |items|
        invariant w.Holds(items) && w.Holds(items[..i])
        invariant total == w.Cost(items[..i], line)
        invariant shown == ShownBy(w, items[..i], line)
      {
        ForwardStep(w, items, i, line);
        var tokens;
        tokens, shown := Charge(w, items[i], line, shown);
        total := total + tokens;
      }
      assert items[..|items|] == items;
      cost := if total < 0 then 0 else total;
    }

    /** Searches for the line: each candidate priced whole, the first that fits taken, and
        otherwise the smallest window seen. */
    method PruneTo(target: nat, counter: TokenCounter, repeat: Repeat, results: Results, current: Current)
      returns (chosen: nat)
      requires Ratchets()
      ensures chosen == Priced(counter, repeat, results, current).PruneLine(floor, target,
                          if pruned < floor then floor else pruned)
    {
      hide Window.WindowTokens, Window.PruneLine;
      ghost var w := Priced(counter, repeat, results, current);
      var start := if pruned < floor then floor else pruned;
      var best := start;
      var smallest := WindowTokens(floor, counter, repeat, start, results, current);
      var line := start;
      while smallest > target && line < |turns|
        invariant start <= best <= line <= |turns|
        invariant w == Priced(counter, repeat, results, current) && smallest == w.WindowTokens(floor, best)
        invariant forall l | start <= l <= line :: smallest <= w.WindowTokens(floor, l)
        invariant forall l | start <= l < best :: smallest < w.WindowTokens(floor, l)
        invariant line > start ==> forall l | start <= l <= line :: w.WindowTokens(floor, l) > target
      {
        line := line + 1;
        var cost := WindowTokens(floor, counter, repeat, line, results, current);
        if cost < smallest {
          best := line;
          smallest := cost;
        }
        if cost <= target {
          FirstFitIsTaken(w, floor, target, start, line);
          return line;
        }
      }
      if smallest <= target {
        FirstFitIsTaken(w, floor, target, start, best);
      } else {
        SmallestIsTaken(w, floor, target, start, best);
      }
      return best;
    }

    /** The prune line, under pressure: every span in the window before any turn of it. */
    method DecideLine(w: Window, available: nat, target: nat, prune: Prune)
      returns (pruning: Option<PruneReport>)
      requires Ratchets() && w.turns == turns && w.jobs == jobs
      modifies this`pruned
      ensures Ratchets() && old(pruned) <= pruned
      ensures pruned == DecidedLine(w, floor, old(pruned), prune, available, target)
      ensures pruning == LineReport(w, floor, old(pruned), pruned)
    {
      pruning := None;
      if prune.Behind? {
        var fit := FitsFrom(available, w.counter, w.repeat, pruned, w.results, w.current);
        if fit > floor {
          var before := pruned;
          var held := WindowTokens(floor, w.counter, w.repeat, before, w.results, w.current);
          pruned := PruneTo(target, w.counter, w.repeat, w.results, w.current);
          if pruned > before {
            var after := WindowTokens(floor, w.counter, w.repeat, pruned, w.results, w.current);
            pruning := Some(PruneReport(GaveUp(w, turns[Max(before, floor)..pruned]), SatSub(held, after), w.counter.id));
          }
        }
      }
    }

    /** Moves the floor where the line as decided was not enough. */
    method DecideFloor(w: Window, available: nat, target: nat, policy: Eviction)
      returns (eviction: Option<Evicted>)
      requires Ratchets() && w.turns == turns && w.jobs == jobs
      modifies this`floor
      ensures Ratchets() && old(floor) <= floor
      ensures floor == DecidedFloor(w, old(floor), pruned, available, target)
      ensures eviction == FloorReport(w, pruned, old(floor), floor, policy)
    {
      eviction := None;
      var fit := FitsFrom(available, w.counter, w.repeat, pruned, w.results, w.current);
      if fit > floor {
        var before := floor;
        var held := WindowTokens(before, w.counter, w.repeat, pruned, w.results, w.current);
        FitsFromFits(w, floor, target, pruned);
        floor := FitsFrom(target, w.counter, w.repeat, pruned, w.results, w.current);
        if floor > before {
          var after := WindowTokens(floor, w.counter, w.repeat, pruned, w.results, w.current);
          eviction := Some(Evicted(IdsOf(turns[before..floor]), SatSub(held, after), w.counter.id, policy));
        }
      }
    }

    /** Renders the decided window, counting as it goes. */
    method RenderHistory(w: Window)
      returns (messages: seq<Message>, history: nat, summaries: nat, shown: set<Fragment>, sent: seq<SentBody>,
               kept: KeptOut, superseded: seq<Superseded>)
      requires w.turns == turns && w.jobs == jobs
      ensures messages == HistoryMessages(w, w.Items(floor), pruned)
      ensures history == HistoryBucket(w, w.Items(floor), pruned)
      ensures summaries == SummariesBucket(w, w.Items(floor), pruned)
      ensures shown == ShownBy(w, w.Items(floor), pruned)
      ensures sent == SentByHistory(w, w.Items(floor), pruned)
      ensures kept == KeptOutBy(w, w.Items(floor), pruned)
      ensures superseded == SupersededReport(CitedBy(w, w.Items(floor), pruned), w.counter)
    {
      hide HistoryMessages, HistoryBucket, SummariesBucket, ShownBy, SentByHistory, ItemMessages, ItemHistory,
        ItemBodies, ItemShown, ItemDropped, ItemCited, KeptOutBy, CitedBy, SupersededReport, Window.ItemTokens, ItemsFrom;
      NothingSuperseded(w.counter);
      NoItems(w, pruned);
      var items := ItemsOf(floor);
      ItemsHold(turns, jobs, floor);
      messages, history, summaries, shown, sent := [], 0, 0, {}, [];
      kept, superseded := KeptOut([], 0, 0), [];
      assert items[..0] == [];
      for i := 0 to |items|
        invariant w.Holds(items) && w.Holds(items[..i])
        invariant messages == HistoryMessages(w, items[..i], pruned)
        invariant history == HistoryBucket(w, items[..i], pruned)
        invariant summaries == SummariesBucket(w, items[..i], pruned)
        invariant shown == ShownBy(w, items[..i], pruned)
        invariant sent == SentByHistory(w, items[..i], pruned)
        invariant kept == KeptOutBy(w, items[..i], pruned)
        invariant superseded == SupersededReport(CitedBy(w, items[..i], pruned), w.counter)
      {
        OneItemMore(w, items, i, pruned);
        var said, worth, folded, bodies, dropped, cited;
        said, worth, folded, shown, bodies, dropped, cited := RenderItem(w, items[i], pruned, shown);
        messages, history, summaries, sent := messages + said, history + worth, summaries + folded, sent + bodies;
        kept := WithDropped(w, kept, items[i], dropped);
        superseded := NoteCitations(superseded, CitedBy(w, items[..i], pruned), cited, w.counter);
      }
      assert items[..|items|] == items;
    }

    /** Nothing is decided against a window nobody knows the size of. */
    method Decide(w: Window, fixed: nat, budget: Budget)
      returns (pruning: Option<PruneReport>, eviction: Option<Evicted>)
      requires Ratchets() && w.turns == turns && w.jobs == jobs
      modifies this`floor, this`pruned
      ensures Ratchets() && old(floor) <= floor && old(pruned) <= pruned
      ensures Ratcheted(w, fixed, budget, old(floor), old(pruned),
                        floor, pruned)
      ensures pruning == LineReport(w, old(floor), old(pruned), pruned)
      ensures eviction == FloorReport(w, pruned, old(floor), floor, budget.eviction)
    {
      pruning, eviction := None, None;
      if budget.limit.Some? {
        var available := SatSub(budget.limit.value, fixed);
        var target := Target(budget.eviction, available);
        pruning := DecideLine(w, available, target, budget.prune);
        eviction := DecideFloor(w, available, target, budget.eviction);
      }
    }

    /** Renders the decided window and the question after it. */
    method RenderPrompt(w: Window, code: seq<Fragment>, prompt: string, asked: Buckets)
      returns (messages: seq<Message>, buckets: Buckets, repeating: Option<Repeated>, diverged: seq<Tally>,
               superseded: seq<Superseded>)
      requires w.turns == turns && w.jobs == jobs
      requires asked.code == CodeTokens(code, w.counter)
      ensures messages == Prompt(w, floor, pruned, SystemMessage(), code, prompt)
      ensures buckets == asked.(summaries := SummariesBucket(w, w.Items(floor), pruned),
                                history := HistoryBucket(w, w.Items(floor), pruned),
                                code := CodeBucket(w, floor, pruned, code))
      ensures diverged == DivergedPaths(AllSent(w, w.Items(floor), pruned, code))
      ensures repeating == RepeatReport(w, KeptOutBy(w, w.Items(floor), pruned), QuestionDropped(w, w.Items(floor), pruned, code))
      ensures superseded == SupersededReport(CitedBy(w, w.Items(floor), pruned), w.counter)
    {
      hide HistoryMessages, HistoryBucket, SummariesBucket, ShownBy, SentByHistory, KeptOutBy, CitedBy, SupersededReport,
        ItemsFrom, KeptSpans, DroppedSpans, DivergedPaths, SpansText, SpansTokens, RepeatReport;
      var rendered, history, summaries, shown, sent, keptOut;
      rendered, history, summaries, shown, sent, keptOut, superseded := RenderHistory(w);
      var kept, dropped, _ := SplitShown(code, shown, w.repeat);
      repeating := RepeatReport(w, keptOut, dropped);
      var codeTokens := if |kept| == |code| then asked.code else CodeTokens(kept, w.counter);
      messages := [Message(System, SystemMessage())] + rendered
                  + [Message(User, UserText(kept, Bytes, prompt, w.counter))];
      buckets := asked.(summaries := summaries, history := history, code := codeTokens);
      diverged := Diverge(sent + SentByQuestion(kept));
    }

    /** One selection: the ratchets moved as decided, and the prompt and its reports from there. */
    method Select(prompt: string, code: seq<Fragment>, budget: Budget, counter: TokenCounter) returns (s: Selected)
      requires Ratchets()
      modifies this`floor, this`pruned, this`cited, this`resending
      ensures Ratchets() && old(floor) <= floor && old(pruned) <= pruned
      ensures cited == budget.results && resending == budget.repeat
      ensures Ratcheted(Asked(code, budget, counter), AskedBuckets(code, prompt, budget, counter).Fixed(), budget,
                        old(floor), old(pruned), floor, pruned)
      ensures MovedAsNeeded(Asked(code, budget, counter), AskedBuckets(code, prompt, budget, counter).Fixed(), budget,
                            old(floor), old(pruned), floor, pruned)
      ensures s.messages == Prompt(Asked(code, budget, counter), floor, pruned, SystemMessage(), code, prompt)
      ensures s.buckets == SentBuckets(code, prompt, budget, counter)
      ensures s.buckets.reserve == if budget.limit.Some? then Some(budget.reserve) else None
      ensures AskedBuckets(code, prompt, budget, counter).Fixed() + s.buckets.summaries + s.buckets.history + s.buckets.code
           == s.buckets.Total() + CodeTokens(code, counter)
      ensures var w := Asked(code, budget, counter);
              && s.diverged == DivergedPaths(AllSent(w, w.Items(floor), pruned, code))
              && s.superseded == SupersededReport(CitedBy(w, w.Items(floor), pruned), counter)
              && s.repeating == RepeatReport(w, KeptOutBy(w, w.Items(floor), pruned),
                                             QuestionDropped(w, w.Items(floor), pruned, code))
      ensures Additive(counter) && Counted(Asked(code, budget, counter)) ==>
                && WithinLimit(budget, AskedBuckets(code, prompt, budget, counter).Fixed(), s.buckets)
                && Accounted(Asked(code, budget, counter), floor, s.messages, s.buckets, toolsNative, |SystemBlocks()|)
      ensures s.evicted == floor && s.pruned == pruned && s.limit == budget.limit && s.counter == counter.id
      ensures s.pruning == LineReport(Asked(code, budget, counter), old(floor), old(pruned), pruned)
      ensures s.eviction == FloorReport(Asked(code, budget, counter), pruned, old(floor), floor, budget.eviction)
      ensures LineReported(Asked(code, budget, counter), old(floor), old(pruned), pruned, s.pruning)
      ensures FloorReported(Asked(code, budget, counter), old(floor), floor, budget.eviction, s.eviction)
    {
      hide Prompt, Ratcheted, LineReport, FloorReport, AllSent, DivergedPaths, CurrentOf, Carried, CodeBucket,
        HistoryBucket, SummariesBucket, CodeTokens, RepeatReport, SupersededReport, CitedBy, KeptOutBy, QuestionDropped,
        Accounted, WithinLimit, Additive, Counted, WithBlocks, Blocks, MovedAsNeeded, LineReported, FloorReported;
      cited, resending := budget.results, budget.repeat;
      var current := CurrentBodies(code, budget.repeat);
      var asked := AskedBuckets(code, prompt, budget, counter);
      var w := Priced(counter, budget.repeat, budget.results, current);
      var pruning, eviction := Decide(w, asked.Fixed(), budget);
      DecidesWhatIsNeeded(w, asked.Fixed(), budget, old(floor), old(pruned), floor, pruned);
      ReportsSayWhatMoved(w, asked.Fixed(), budget, old(floor), old(pruned), floor, pruned);
      var messages, buckets, repeating, diverged, superseded := RenderPrompt(w, code, prompt, asked);
      if Additive(counter) && Counted(w) {
        PromisesKept(w, budget, old(floor), old(pruned), floor, pruned, system, tools, toolsNative, outline,
                     authorityNote, code, prompt);
      }
      s := Selected(messages, buckets, budget.limit, counter.id, floor, pruned, eviction, pruning, repeating, diverged,
                    superseded);
    }

    function SentBuckets(code: seq<Fragment>, prompt: string, budget: Budget, counter: TokenCounter): Buckets
      reads this
    {
      var w := Asked(code, budget, counter);
      AskedBuckets(code, prompt, budget, counter).(
        summaries := SummariesBucket(w, w.Items(floor), pruned),
        history := HistoryBucket(w, w.Items(floor), pruned),
        code := CodeBucket(w, floor, pruned, code))
    }

    /** Stores an answered turn with its count, in the job it lands in. */
    method PushTurn(id: TurnId, prompt: string, answer: string, code: seq<Fragment>, steps: seq<ToolStep>,
                    counter: TokenCounter)
      requires Valid()
      modifies this`turns, this`jobs
      ensures Valid()
      ensures var landed := Turn(id, prompt, answer, steps, code, LandingJob(old(jobs)), 0, counter.id);
              Contents() == Push(old(Contents()), landed.(tokens := TurnTokens(landed, counter)))
      ensures !ClosedJob(jobs, turns[|turns| - 1].job)
    {
      var tokens := counter.count(UserText(code, Bytes, prompt, counter)) + StepsTokens(steps, counter)
                    + counter.count(answer);
      var job;
      match CurrentJob(jobs) {
        case Some(current) => job := current;
        case None =>
          job := |jobs| + 1;
          jobs := jobs + [Draft(job, prompt)];
      }
      turns := turns + [Turn(id, prompt, answer, steps, code, job, tokens, counter.id)];
      PushKeeps(old(Contents()), turns[|turns| - 1]);
    }

    /** What a prompt cache is paid for: ask, store the answered turn, ask again. Where
        neither ratchet moved and nothing on the screen was read with other bytes, the first
        prompt, the turn's own exchanges and its answer are a prefix of the second. */
    method AskAnswerAsk(id: TurnId, prompt: string, code: seq<Fragment>, answer: string, steps: seq<ToolStep>,
                        next: string, later: seq<Fragment>, budget: Budget, counter: TokenCounter)
      returns (first: Selected, second: Selected)
      requires Valid()
      modifies this
      ensures Valid()
      ensures first.evicted == second.evicted && first.pruned == second.pruned
        && (budget.repeat.Once? ==>
              OneBodyPerPath(code)
              && ReadTheSame(old(Asked(code, budget, counter)), first.evicted, first.pruned, code, later))
        ==> first.messages + Replay(steps, Results.Kept, counter) + [Message(Assistant, answer)] <= second.messages
    {
      hide Prompt, Ratcheted, LineReport, FloorReport, AllSent, DivergedPaths, SentBuckets, ReadTheSame, Alternates,
        JobsStand, TurnTokens, Replay, CurrentOf, Carried, LandingJob, Landed, ClosedJob, OneBodyPerPath,
        Context.AskedBuckets, Context.SystemMessage, Accounted, WithinLimit, Counted, Additive, RepeatReport, SupersededReport,
        CitedBy, KeptOutBy, QuestionDropped, Blocks, MovedAsNeeded, LineReported, FloorReported;
      ghost var v, before, system := Asked(code, budget, counter), Contents(), SystemMessage();
      first := Select(prompt, code, budget, counter);
      assert first.messages == Prompt(v, first.evicted, first.pruned, system, code, prompt);
      PushTurn(id, prompt, answer, code, steps, counter);
      ghost var turn := turns[|turns| - 1];
      LandingDisturbsNothing(before, turn);
      assert turns == v.turns + [turn] && JobsStand(v.turns, v.jobs, jobs, turn);
      second := Select(next, later, budget, counter);
      ghost var w := Asked(later, budget, counter);
      assert second.messages == Prompt(w, second.evicted, second.pruned, system, later, next);
      if first.evicted == second.evicted && first.pruned == second.pruned
         && (budget.repeat.Once? ==> OneBodyPerPath(code) && ReadTheSame(v, first.evicted, first.pruned, code, later))
      {
        NextPromptExtends(v, w, first.evicted, first.pruned, system, turn, later, next);
      }
    }

    /** Folds an open job: what it did becomes its summary, priced as it is written. */
    method CloseJobBy(id: JobId, counter: TokenCounter, closer: ClosedBy, scribe: Scribe) returns (text: Option<string>)
      requires Valid()
      modifies this`jobs
      ensures Valid()
      ensures text.Some? <==> Closable(old(jobs), id)
      ensures text.None? ==> jobs == old(jobs)
      ensures text.Some? ==>
        && FindJob(old(jobs), id).Some?
        && text.value == Wording(turns, FindJob(old(jobs), id).value, scribe)
        && jobs == CloseJob(old(jobs), id, text.value, counter, closer, Replacing(old(Standing(counter)), id, pruned))
        && CurrentJob(jobs).None?
    {
      var replaced := Replacing(Standing(counter), id, pruned);
      FindIsPosition(jobs, id);
      var found := FindJob(jobs, id);
      if found.None? || !found.value.IsOpen() {
        return None;
      }
      var wording := Wording(turns, found.value, scribe);
      CloseKeeps(Contents(), id, wording, counter, closer, replaced);
      jobs := jobs[id - 1 := found.value.Close(wording, counter, closer, replaced)];
      text := Some(wording);
    }

    /** The session as it was last rendered, between one selection and the next. */
    function Standing(counter: TokenCounter): (w: Window)
      reads `turns, `jobs, `resending, `cited
      ensures w == Window(turns, jobs, counter, resending, cited, CurrentOf(Carried(turns), resending))
    {
      Priced(counter, resending, cited, CurrentOf(Carried(turns), resending))
    }

    /** Folds the current job where its own steps meet what its plan ends on. */
    method CloseIfMet(counter: TokenCounter, scribe: Scribe) returns (closed: Option<(JobId, string)>)
      requires Valid()
      modifies this`jobs
      ensures Valid()
      ensures closed.None? ==> jobs == old(jobs)
      ensures closed.Some? <==>
        && CurrentJob(old(jobs)).Some?
        && var job := FindJob(old(jobs), CurrentJob(old(jobs)).value);
           job.Some? && MetBy(turns, job.value, scribe)
      ensures closed.Some? ==>
        && CurrentJob(old(jobs)) == Some(closed.value.0)
        && closed.value.1 == Wording(turns, FindJob(old(jobs), closed.value.0).value, scribe)
        && jobs == CloseJob(old(jobs), closed.value.0, closed.value.1, counter, ByExitCode,
                            Replacing(old(Standing(counter)), closed.value.0, pruned))
    {
      closed := None;
      match CurrentJob(jobs) {
        case None =>
        case Some(id) =>
          FindIsPosition(jobs, id);
          var job := FindJob(jobs, id).value;
          if MetBy(turns, job, scribe) {
            var text := CloseJobBy(id, counter, ByExitCode, scribe);
            closed := Some((id, text.value));
          }
      }
    }

    /** Approving is closing: the open draft folds, and the plan's own job opens after it. */
    method ApprovePlan(objective: string, proposed: Plan, plan: Plan, source: PlanSource, approver: ApprovedBy,
                       counter: TokenCounter, scribe: Scribe) returns (approval: Approval)
      requires Valid()
      modifies this`jobs, this`rounds
      ensures Valid()
      ensures approval.job == |old(jobs)| + 1 && CurrentJob(jobs) == Some(approval.job)
      ensures approval.folded.Some? <==> CurrentJob(old(jobs)).Some?
      ensures approval.folded.Some? ==>
        && CurrentJob(old(jobs)) == Some(approval.folded.value.0) && FindJob(old(jobs), approval.folded.value.0).Some?
        && approval.folded.value.1 == Wording(turns, FindJob(old(jobs), approval.folded.value.0).value, scribe)
      ensures var closed := if approval.folded.None? then old(jobs)
                else CloseJob(old(jobs), approval.folded.value.0, approval.folded.value.1, counter, ByApproval,
                              Replacing(old(Standing(counter)), approval.folded.value.0, pruned));
              Contents() == Approve(old(Contents()).(jobs := closed), objective, proposed, plan, source, approver)
    {
      hide Wording, Replacing, CurrentOf, Carried, InOrder, NoEmptyDraft, FoldsHaveSummaries, OnlyTheLastIsOpen;
      var folded := None;
      match CurrentJob(jobs) {
        case None =>
        case Some(draft) =>
          FindIsPosition(jobs, draft);
          var text := CloseJobBy(draft, counter, ByApproval, scribe);
          folded := Some((draft, text.value));
      }
      ApproveKeeps(Contents(), objective, proposed, plan, source, approver);
      var id := |jobs| + 1;
      jobs := jobs + [Planned(id, objective, plan, approver)];
      rounds := rounds + [Round(objective, proposed, source, Some(Approved(id)))];
      approval := Approval(id, folded);
    }

    /** A plan refused leaves a round behind and the jobs as they were. */
    method DeclinePlan(objective: string, plan: Plan, source: PlanSource)
      requires Valid()
      modifies this`rounds
      ensures Valid() && rounds == old(rounds) + [Round(objective, plan, source, Some(Declined))]
    {
      rounds := rounds + [Round(objective, plan, source, Some(Declined))];
    }

    /** Takes back the fold of the last job; of any other it does nothing. */
    method Reopen(id: JobId) returns (done: bool)
      requires Valid()
      modifies this`jobs
      ensures Valid()
      ensures done <==> Reopenable(old(jobs), id)
      ensures jobs == ReopenJob(old(jobs), id)
      ensures done ==> CurrentJob(jobs) == Some(id)
    {
      if jobs == [] || jobs[|jobs| - 1].id != id {
        return false;
      }
      ReopenKeeps(Contents(), id);
      if !jobs[|jobs| - 1].IsClosed() {
        return false;
      }
      jobs := jobs[|jobs| - 1 := jobs[|jobs| - 1].Reopen()];
      return true;
    }
  }

}
