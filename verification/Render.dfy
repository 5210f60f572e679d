/** The prompt as it is rendered from a decided floor and prune line, and what its
    buckets say about it. */
module Render {
  import opened Conversation
  import opened Spans
  import opened Jobs
  import opened Window
  import opened Walks

  // --------------------------------------------------------------- splitting a turn's spans

  /** The spans a turn renders, given what this prompt already shows. */
  function Fresh(code: seq<Fragment>, shown: set<Fragment>): seq<Fragment> {
    if code == [] then []
    else if code[0] in shown then Fresh(code[1..], shown)
    else [code[0]] + Fresh(code[1..], shown + {code[0]})
  }

  /** The spans it drops because this prompt already shows them. */
  function Repeats(code: seq<Fragment>, shown: set<Fragment>): seq<Fragment> {
    if code == [] then []
    else if code[0] in shown then [code[0]] + Repeats(code[1..], shown)
    else Repeats(code[1..], shown + {code[0]})
  }

  function KeptSpans(repeat: Repeat, code: seq<Fragment>, shown: set<Fragment>): seq<Fragment> {
    if repeat.Always? then code else Fresh(code, shown)
  }

  function DroppedSpans(repeat: Repeat, code: seq<Fragment>, shown: set<Fragment>): seq<Fragment> {
    if repeat.Always? then [] else Repeats(code, shown)
  }

  // ----------------------------------------------------------------------- the rendering

  function LiveMessages(w: Window, turn: Turn, kept: seq<Fragment>): seq<Message> {
    [Message(User, UserText(kept, Shown(w.current), turn.prompt, w.counter))]
    + Replay(turn.steps, Kept, w.counter) + [Message(Assistant, turn.answer)]
  }

  function PrunedMessages(w: Window, turn: Turn): seq<Message> {
    [Message(User, UserText(turn.code, Pruned, turn.prompt, w.counter))]
    + Replay(turn.steps, w.results, w.counter) + [Message(Assistant, turn.answer)]
  }

  /** A fold is one exchange: the job's objective, and its summary. */
  function FoldMessages(w: Window, job: JobId): seq<Message> {
    var found := FindJob(w.jobs, job);
    if found.Some? && found.value.summary.Some?
    then [Message(User, found.value.objective), Message(Assistant, found.value.summary.value.text)]
    else []
  }

  function ObjectiveTokens(w: Window, job: JobId): nat {
    var found := FindJob(w.jobs, job);
    if found.Some? && found.value.summary.Some? then w.counter.count(found.value.objective) else 0
  }

  /** The spans already on the screen when the items before this one are rendered. */
  function ShownBy(w: Window, items: seq<Item>, pruned: nat): set<Fragment>
    requires w.Holds(items)
  {
    SetOf(w.AllBodies(items, pruned))
  }

  function ItemMessages(w: Window, item: Item, pruned: nat, shown: set<Fragment>): seq<Message>
    requires item.Live? ==> item.index < |w.turns|
  {
    match item
    case Live(i) =>
      if i < pruned then PrunedMessages(w, w.turns[i])
      else LiveMessages(w, w.turns[i], KeptSpans(w.repeat, w.turns[i].code, shown))
    case Folded(job, _) => FoldMessages(w, job)
  }

  function HistoryMessages(w: Window, items: seq<Item>, pruned: nat): seq<Message>
    requires w.Holds(items)
  {
    if items == [] then []
    else
      var front, last := items[..|items| - 1], items[|items| - 1];
      HistoryMessages(w, front, pruned) + ItemMessages(w, last, pruned, ShownBy(w, front, pruned))
  }

  /** The part of the history that live and pruned turns send. */
  function TurnMessages(w: Window, items: seq<Item>, pruned: nat): seq<Message>
    requires w.Holds(items)
  {
    if items == [] then []
    else
      var front, last := items[..|items| - 1], items[|items| - 1];
      TurnMessages(w, front, pruned)
      + if last.Live? then ItemMessages(w, last, pruned, ShownBy(w, front, pruned)) else []
  }

  /** What one item adds to the `history` bucket: an item's stored cost, less the spans
      this render leaves out of it. */
  function ItemHistory(w: Window, item: Item, pruned: nat, shown: set<Fragment>): nat
    requires item.Live? ==> item.index < |w.turns|
  {
    match item
    case Live(i) =>
      if i < pruned then w.ItemTokens(item, pruned)
      else SatSub(w.ItemTokens(item, pruned),
                  SpansTokens(DroppedSpans(w.repeat, w.turns[i].code, shown), Shown(w.current), w.counter))
    case Folded(_, _) => 0
  }

  function HistoryBucket(w: Window, items: seq<Item>, pruned: nat): nat
    requires w.Holds(items)
  {
    if items == [] then 0
    else
      var front, last := items[..|items| - 1], items[|items| - 1];
      HistoryBucket(w, front, pruned) + ItemHistory(w, last, pruned, ShownBy(w, front, pruned))
  }

  function SummariesBucket(w: Window, items: seq<Item>, pruned: nat): nat
    requires w.Holds(items)
  {
    if items == [] then 0
    else
      var front, last := items[..|items| - 1], items[|items| - 1];
      SummariesBucket(w, front, pruned) + if last.Folded? then w.ItemTokens(last, pruned) else 0
  }

  /** What the folds send that no bucket charges. */
  function Objectives(w: Window, items: seq<Item>): nat {
    if items == [] then 0
    else
      var front, last := items[..|items| - 1], items[|items| - 1];
      Objectives(w, front) + if last.Folded? then ObjectiveTokens(w, last.job) else 0
  }

  // ------------------------------------------------------------- buckets describe messages

  lemma {:induction false} CopiesAreRepeats(w: Window, code: seq<Fragment>, shown: set<Fragment>)
    ensures w.Copies(code, shown) == SpansTokens(Repeats(code, shown), Shown(w.current), w.counter)
    ensures SpansTokens(code, Shown(w.current), w.counter)
         == SpansTokens(Fresh(code, shown), Shown(w.current), w.counter)
            + SpansTokens(Repeats(code, shown), Shown(w.current), w.counter)
  {
    if code != [] {
      if code[0] in shown {
        assert shown + {code[0]} == shown;
        CopiesAreRepeats(w, code[1..], shown);
      } else {
        CopiesAreRepeats(w, code[1..], shown + {code[0]});
      }
    }
  }

  lemma ExchangeMessages(first: string, turn: Turn, results: Results, c: TokenCounter)
    ensures MessagesTokens([Message(User, first)] + Replay(turn.steps, results, c) + [Message(Assistant, turn.answer)], c)
         == c.count(first) + Exchange(turn, results, c) - c.count(turn.prompt)
  {
    var user, answer := [Message(User, first)], [Message(Assistant, turn.answer)];
    MessagesTokensAppend(user + Replay(turn.steps, results, c), answer, c);
    MessagesTokensAppend(user, Replay(turn.steps, results, c), c);
    OneMessageTokens(user[0], c);
    OneMessageTokens(answer[0], c);
  }

  lemma LiveMessagesTokens(w: Window, turn: Turn, kept: seq<Fragment>)
    requires Additive(w.counter)
    ensures MessagesTokens(LiveMessages(w, turn, kept), w.counter)
         == SpansTokens(kept, Shown(w.current), w.counter) + Exchange(turn, Kept, w.counter)
  {
    ExchangeMessages(UserText(kept, Shown(w.current), turn.prompt, w.counter), turn, Kept, w.counter);
    UserTextTokens(kept, Shown(w.current), turn.prompt, w.counter);
  }

  lemma PrunedMessagesTokens(w: Window, turn: Turn)
    requires Additive(w.counter)
    ensures MessagesTokens(PrunedMessages(w, turn), w.counter)
         == SpansTokens(turn.code, Pruned, w.counter) + Exchange(turn, w.results, w.counter)
  {
    ExchangeMessages(UserText(turn.code, Pruned, turn.prompt, w.counter), turn, w.results, w.counter);
    UserTextTokens(turn.code, Pruned, turn.prompt, w.counter);
  }

  /** One item: its history tokens are the count of its messages, the subtraction never
      saturates, and what it adds is what the forward walk charges. */
  lemma ItemHistoryExact(w: Window, item: Item, pruned: nat, shown: set<Fragment>)
    requires Additive(w.counter) && Counted(w) && item.Live? && item.index < |w.turns|
    ensures ItemHistory(w, item, pruned, shown) == MessagesTokens(ItemMessages(w, item, pruned, shown), w.counter)
    ensures ItemHistory(w, item, pruned, shown)
         == w.ItemTokens(item, pruned) - w.Copies(w.Bodies(item, pruned), shown)
  {
    var turn := w.turns[item.index];
    if item.index < pruned {
      PrunedTokensExact(w, item.index);
      PrunedMessagesTokens(w, turn);
    } else {
      LiveTokensExact(w, item.index);
      CopiesAreRepeats(w, turn.code, shown);
      LiveMessagesTokens(w, turn, KeptSpans(w.repeat, turn.code, shown));
    }
  }

  /** Under every combination of the window rules, `history` is the exact count of what
      the live and pruned turns send. */
  lemma {:induction false} HistoryBucketIsExact(w: Window, items: seq<Item>, pruned: nat)
    requires Additive(w.counter) && Counted(w) && w.Holds(items)
    ensures HistoryBucket(w, items, pruned) == MessagesTokens(TurnMessages(w, items, pruned), w.counter)
  {
    if items != [] {
      var front, last := items[..|items| - 1], items[|items| - 1];
      HistoryBucketIsExact(w, front, pruned);
      var shown := ShownBy(w, front, pruned);
      if last.Live? {
        ItemHistoryExact(w, last, pruned, shown);
        MessagesTokensAppend(TurnMessages(w, front, pruned), ItemMessages(w, last, pruned, shown), w.counter);
      } else {
        assert TurnMessages(w, items, pruned) == TurnMessages(w, front, pruned);
      }
    }
  }

  lemma FindJobIsIn(jobs: seq<Job>, id: JobId)
    ensures FindJob(jobs, id).Some? ==> exists i | 0 <= i < |jobs| :: jobs[i] == FindJob(jobs, id).value
  {
    if jobs != [] && jobs[0].id != id {
      FindJobIsIn(jobs[1..], id);
      if FindJob(jobs, id).Some? {
        var i :| 0 <= i < |jobs[1..]| && jobs[1..][i] == FindJob(jobs, id).value;
        assert jobs[i + 1] == FindJob(jobs, id).value;
      }
    }
  }

  lemma FoldTokensExact(w: Window, item: Item, pruned: nat)
    requires Counted(w) && item.Folded?
    ensures MessagesTokens(FoldMessages(w, item.job), w.counter) == w.ItemTokens(item, pruned) + ObjectiveTokens(w, item.job)
  {
    FindJobIsIn(w.jobs, item.job);
    var found := FindJob(w.jobs, item.job);
    if found.Some? && found.value.summary.Some? {
      var user, answer := Message(User, found.value.objective), Message(Assistant, found.value.summary.value.text);
      MessagesTokensAppend([user], [answer], w.counter);
      OneMessageTokens(user, w.counter);
      OneMessageTokens(answer, w.counter);
      assert [user] + [answer] == FoldMessages(w, item.job);
    }
  }

  /** The whole rendered history counts as its two buckets, plus the objectives of the folds,
      which are sent and charged to nobody. */
  lemma {:induction false} HistoryMessagesTokens(w: Window, items: seq<Item>, pruned: nat)
    requires Additive(w.counter) && Counted(w) && w.Holds(items)
    ensures MessagesTokens(HistoryMessages(w, items, pruned), w.counter)
         == HistoryBucket(w, items, pruned) + SummariesBucket(w, items, pruned) + Objectives(w, items)
  {
    if items != [] {
      var front, last := items[..|items| - 1], items[|items| - 1];
      HistoryMessagesTokens(w, front, pruned);
      var shown := ShownBy(w, front, pruned);
      MessagesTokensAppend(HistoryMessages(w, front, pruned), ItemMessages(w, last, pruned, shown), w.counter);
      if last.Live? {
        ItemHistoryExact(w, last, pruned, shown);
      } else {
        FoldTokensExact(w, last, pruned);
      }
    }
  }

  /** The two buckets are the window's cost as the decision priced it. */
  lemma {:induction false} BucketsAreTheCost(w: Window, items: seq<Item>, pruned: nat)
    requires Additive(w.counter) && Counted(w) && w.Holds(items)
    ensures HistoryBucket(w, items, pruned) + SummariesBucket(w, items, pruned) == w.Cost(items, pruned)
  {
    if items != [] {
      var front, last := items[..|items| - 1], items[|items| - 1];
      BucketsAreTheCost(w, front, pruned);
      if last.Live? {
        ItemHistoryExact(w, last, pruned, ShownBy(w, front, pruned));
      }
    }
  }
}
