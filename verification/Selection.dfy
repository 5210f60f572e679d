/** One selection: what is decided against the budget, what is rendered from the
    decision, and what the two promise together. */
module Selection {
  import opened Conversation
  import opened Spans
  import opened Window
  import opened Walks
  import opened Render

  /** A low-water mark: the share of the available budget a deep cut leaves, rounded as
      the host rounds it, and never more than the whole. */
  type LowWater = mark: nat -> nat | forall n :: mark(n) <= n witness n => n

  /** How the history gives way: by exactly as much as it takes, or past a low-water mark. */
  datatype Eviction = ByTurn | ByBlock(lowWater: LowWater)

  datatype Budget = Budget(limit: Option<nat>, reserve: nat, eviction: Eviction,
                           repeat: Repeat, prune: Prune, results: Results)

  function Target(eviction: Eviction, available: nat): (target: nat)
    ensures target <= available
  {
    match eviction
    case ByTurn => available
    case ByBlock(lowWater) => lowWater(available)
  }

  /** The prune line after a decision: it moves only under pressure, and first. */
  function DecidedLine(w: Window, floor: nat, pruned: nat, prune: Prune, available: nat, target: nat): (line: nat)
    requires floor <= |w.turns| && pruned <= |w.turns|
    ensures pruned <= line <= |w.turns|
  {
    if prune.Behind? && w.FitsFrom(floor, available, pruned) > floor
    then w.PruneLine(floor, target, if pruned < floor then floor else pruned)
    else pruned
  }

  /** The floor after a decision, taken under the line already decided. */
  function DecidedFloor(w: Window, floor: nat, line: nat, available: nat, target: nat): nat {
    if w.FitsFrom(floor, available, line) > floor then w.FitsFrom(floor, target, line) else floor
  }

  datatype Buckets = Buckets(system: nat, tools: nat, outline: nat, summaries: nat, history: nat,
                             code: nat, prompt: nat, reserve: Option<nat>)
  {
    function Total(): nat {
      system + tools + outline + summaries + history + code + prompt + reserve.GetOr(0)
    }

    /** What is not negotiable: everything but the history and its folds. */
    function Fixed(): nat {
      system + tools + outline + code + prompt + reserve.GetOr(0)
    }
  }

  function QuestionSpans(w: Window, floor: nat, pruned: nat, code: seq<Fragment>): seq<Fragment> {
    KeptSpans(w.repeat, code, ShownBy(w, w.Items(floor), pruned))
  }

  /** The question, after the history, without the spans the history shows. */
  function Question(w: Window, floor: nat, pruned: nat, code: seq<Fragment>, prompt: string): Message {
    Message(User, UserText(QuestionSpans(w, floor, pruned, code), Bytes, prompt, w.counter))
  }

  function Prompt(w: Window, floor: nat, pruned: nat, system: string, code: seq<Fragment>, prompt: string): seq<Message> {
    [Message(System, system)] + HistoryMessages(w, w.Items(floor), pruned) + [Question(w, floor, pruned, code, prompt)]
  }

  function CodeTokens(code: seq<Fragment>, c: TokenCounter): nat {
    c.count(SpansText(code, Bytes, c))
  }

  /** The `code` bucket: recounted only when the history took something over. */
  function CodeBucket(w: Window, floor: nat, pruned: nat, code: seq<Fragment>): nat {
    var kept := QuestionSpans(w, floor, pruned, code);
    CodeTokens(if |kept| == |code| then code else kept, w.counter)
  }

  lemma {:induction false} FreshIsShorter(code: seq<Fragment>, shown: set<Fragment>)
    ensures |Fresh(code, shown)| <= |code|
    ensures |Fresh(code, shown)| == |code| ==> Fresh(code, shown) == code
  {
    if code != [] {
      FreshIsShorter(code[1..], if code[0] in shown then shown else shown + {code[0]});
    }
  }

  lemma {:induction false} FreshCostsNoMore(code: seq<Fragment>, shown: set<Fragment>, c: TokenCounter)
    ensures SpansTokens(Fresh(code, shown), Bytes, c) <= SpansTokens(code, Bytes, c)
  {
    if code != [] {
      FreshCostsNoMore(code[1..], if code[0] in shown then shown else shown + {code[0]}, c);
    }
  }

  lemma CodeBucketIsExact(w: Window, floor: nat, pruned: nat, code: seq<Fragment>)
    requires Additive(w.counter)
    ensures CodeBucket(w, floor, pruned, code) == SpansTokens(QuestionSpans(w, floor, pruned, code), Bytes, w.counter)
    ensures CodeBucket(w, floor, pruned, code) <= CodeTokens(code, w.counter)
  {
    var shown := ShownBy(w, w.Items(floor), pruned);
    FreshIsShorter(code, shown);
    FreshCostsNoMore(code, shown, w.counter);
    SpansTokensOfText(code, Bytes, w.counter);
    SpansTokensOfText(Fresh(code, shown), Bytes, w.counter);
  }

  // --------------------------------------------------------------------------- the decision

  lemma FloorDecisionFits(w: Window, floor: nat, line: nat, available: nat, target: nat)
    requires floor <= |w.turns| && target <= available
    ensures floor <= DecidedFloor(w, floor, line, available, target) <= |w.turns|
    ensures w.WindowTokens(DecidedFloor(w, floor, line, available, target), line) <= available
    ensures OnBoundary(w, floor, DecidedFloor(w, floor, line, available, target))
  {
    if w.FitsFrom(floor, available, line) > floor {
      FitsFromFits(w, floor, target, line);
    } else {
      FitsFromFits(w, floor, available, line);
    }
  }

  /** The decision under any counter: both ratchets move forward only, the floor is where
      some item starts, and the window it leaves fits what was available. */
  lemma DecisionFits(w: Window, floor: nat, pruned: nat, prune: Prune, available: nat, target: nat)
    requires floor <= |w.turns| && pruned <= |w.turns| && target <= available
    ensures var line := DecidedLine(w, floor, pruned, prune, available, target);
            var cut := DecidedFloor(w, floor, line, available, target);
            && floor <= cut <= |w.turns| && pruned <= line
            && w.WindowTokens(cut, line) <= available
            && OnBoundary(w, floor, cut)
  {
    var line := DecidedLine(w, floor, pruned, prune, available, target);
    FloorDecisionFits(w, floor, line, available, target);
  }

  /** What pruning is said to have saved is the exact difference of two windows, under any
      counter: the line that is taken never leaves the window larger. */
  lemma PruningSavesExactly(w: Window, floor: nat, pruned: nat, target: nat)
    requires floor <= |w.turns| && pruned <= |w.turns|
    ensures var start := if pruned < floor then floor else pruned;
            w.WindowTokens(floor, w.PruneLine(floor, target, start)) <= w.WindowTokens(floor, start)
            && w.WindowTokens(floor, start) == w.WindowTokens(floor, pruned)
  {
    var start := if pruned < floor then floor else pruned;
    if pruned < floor {
      LineBelowFloor(w, floor, pruned);
    }
    if w.WindowTokens(floor, start) <= target {
      assert w.ShallowestFit(floor, target, start) == Some(start);
    }
  }

  /** The line `prune_to` takes: the shallowest that fits the target, and where none does,
      the shallowest of those that leave the window smallest. */
  lemma PruneLineMeaning(w: Window, floor: nat, target: nat, start: nat, line: nat)
    requires start <= |w.turns|
    ensures line == w.PruneLine(floor, target, start)
      <==> && start <= line <= |w.turns|
           && if exists l | start <= l <= |w.turns| :: w.WindowTokens(floor, l) <= target
              then w.WindowTokens(floor, line) <= target
                   && forall l | start <= l < line :: w.WindowTokens(floor, l) > target
              else (forall l | start <= l <= |w.turns| :: w.WindowTokens(floor, line) <= w.WindowTokens(floor, l))
                   && forall l | start <= l < line :: w.WindowTokens(floor, line) < w.WindowTokens(floor, l)
  {
    var chosen := w.PruneLine(floor, target, start);
    if start <= line <= |w.turns| && line != chosen {
      var low, high := if line < chosen then line else chosen, if line < chosen then chosen else line;
      assert w.WindowTokens(floor, low) >= 0 && w.WindowTokens(floor, high) >= 0;
    }
  }

  /** The search stops at the first line that fits. */
  lemma FirstFitIsTaken(w: Window, floor: nat, target: nat, start: nat, line: nat)
    requires start <= line <= |w.turns| && w.WindowTokens(floor, line) <= target
    requires forall l | start <= l < line :: w.WindowTokens(floor, l) > target
    ensures w.PruneLine(floor, target, start) == line
  {
  }

  /** And where none fits, at the shallowest of the smallest. */
  lemma SmallestIsTaken(w: Window, floor: nat, target: nat, start: nat, line: nat)
    requires start <= line <= |w.turns|
    requires forall l | start <= l <= |w.turns| :: target < w.WindowTokens(floor, l)
    requires forall l | start <= l <= |w.turns| :: w.WindowTokens(floor, line) <= w.WindowTokens(floor, l)
    requires forall l | start <= l < line :: w.WindowTokens(floor, line) < w.WindowTokens(floor, l)
    ensures w.PruneLine(floor, target, start) == line
  {
    var best := w.Smallest(floor, start);
    assert w.WindowTokens(floor, best) <= w.WindowTokens(floor, line) <= w.WindowTokens(floor, best);
  }

  /** One flag apart: from the same ratchets, with pruning off and nothing stale, rule A
      never leaves the floor further forward, for either policy and every budget. */
  lemma OneFlagApartDecision(w: Window, floor: nat, pruned: nat, available: nat, eviction: Eviction)
    requires NothingStale(w)
    ensures DecidedFloor(w, floor, pruned, available, Target(eviction, available))
         <= DecidedFloor(WithoutRuleA(w), floor, pruned, available, Target(eviction, available))
  {
    var target := Target(eviction, available);
    OneFlagApart(w, floor, available, pruned);
    OneFlagApart(w, floor, target, pruned);
    FitsFromAntitone(WithoutRuleA(w), floor, target, available, pruned);
  }

  // ---------------------------------------------------------------------- budget and buckets

  /** The decision is priced with the question's spans whole; what is rendered can only be
      cheaper. So the buckets stay within the limit whenever the fixed part does, and
      otherwise the history that is kept costs nothing. */
  lemma BudgetSafety(w: Window, floor: nat, pruned: nat, prune: Prune, eviction: Eviction,
                     limit: nat, asked: Buckets, code: seq<Fragment>)
    requires Additive(w.counter) && Counted(w)
    requires floor <= |w.turns| && pruned <= |w.turns|
    requires asked.code == CodeTokens(code, w.counter)
    ensures var available := SatSub(limit, asked.Fixed());
            var target := Target(eviction, available);
            var line := DecidedLine(w, floor, pruned, prune, available, target);
            var cut := DecidedFloor(w, floor, line, available, target);
            && cut <= |w.turns|
            && var sent := asked.(summaries := SummariesBucket(w, w.Items(cut), line),
                                  history := HistoryBucket(w, w.Items(cut), line),
                                  code := CodeBucket(w, cut, line, code));
               if asked.Fixed() <= limit then sent.Total() <= limit else sent.history + sent.summaries == 0
  {
    var available := SatSub(limit, asked.Fixed());
    var target := Target(eviction, available);
    var line := DecidedLine(w, floor, pruned, prune, available, target);
    var cut := DecidedFloor(w, floor, line, available, target);
    DecisionFits(w, floor, pruned, prune, available, target);
    BucketsAreTheCost(w, w.Items(cut), line);
    CodeBucketIsExact(w, cut, line, code);
  }

  /** The whole prompt, message by message: the system block, the buckets, and the
      objectives of the folds. */
  lemma PromptIsExact(w: Window, floor: nat, pruned: nat, system: string, code: seq<Fragment>, prompt: string)
    requires Additive(w.counter) && Counted(w) && floor <= |w.turns|
    ensures MessagesTokens(Prompt(w, floor, pruned, system, code, prompt), w.counter)
         == w.counter.count(system)
            + HistoryBucket(w, w.Items(floor), pruned) + SummariesBucket(w, w.Items(floor), pruned)
            + Objectives(w, w.Items(floor))
            + CodeBucket(w, floor, pruned, code) + w.counter.count(prompt)
  {
    var head, history := Message(System, system), HistoryMessages(w, w.Items(floor), pruned);
    var question := Question(w, floor, pruned, code, prompt);
    MessagesTokensAppend([head] + history, [question], w.counter);
    MessagesTokensAppend([head], history, w.counter);
    OneMessageTokens(head, w.counter);
    OneMessageTokens(question, w.counter);
    HistoryMessagesTokens(w, w.Items(floor), pruned);
    UserTextTokens(QuestionSpans(w, floor, pruned, code), Bytes, prompt, w.counter);
    CodeBucketIsExact(w, floor, pruned, code);
  }
}
