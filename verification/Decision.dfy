/** What a budget does to the two ratchets, said without the decision's own functions: they
    move only under pressure, and as far as the target takes and no further. And what a
    moved ratchet is reported to have dropped. */
module Decision {
  import opened Conversation
  import opened Spans
  import opened Window
  import opened Walks
  import opened Render
  import opened SystemBlock
  import opened Selection

  datatype Evicted = Evicted(turns: seq<TurnId>, tokens: nat, counter: CounterId, policy: Eviction)

  datatype PruneReport = PruneReport(turns: seq<TurnId>, tokens: nat, counter: CounterId)

  function Max(a: nat, b: nat): nat {
    if a < b then b else a
  }

  function IdsOf(turns: seq<Turn>): seq<TurnId> {
    if turns == [] then [] else IdsOf(turns[..|turns| - 1]) + [turns[|turns| - 1].id]
  }

  /** Something of the turn goes out differently behind the line. */
  predicate GivesUp(w: Window, turn: Turn) {
    turn.code != []
    || (!w.results.Kept? && exists step | step in turn.steps :: ResultUnder(step, w.results, w.counter) != step.ResultText())
  }

  /** The turns that had something to give up behind the line. */
  function GaveUp(w: Window, turns: seq<Turn>): seq<TurnId> {
    if turns == [] then []
    else
      var last := turns[|turns| - 1];
      GaveUp(w, turns[..|turns| - 1]) + if GivesUp(w, last) then [last.id] else []
  }

  /** What a moved line is reported to have saved, and from whom. */
  function LineReport(w: Window, floor: nat, before: nat, after: nat): Option<PruneReport>
    requires after <= |w.turns|
  {
    if after <= before then None
    else Some(PruneReport(GaveUp(w, if Max(before, floor) <= after then w.turns[Max(before, floor)..after] else []),
                          SatSub(w.WindowTokens(floor, before), w.WindowTokens(floor, after)), w.counter.id))
  }

  /** What a moved floor is reported to have dropped. */
  function FloorReport(w: Window, line: nat, before: nat, after: nat, policy: Eviction): Option<Evicted>
    requires after <= |w.turns|
  {
    if after <= before then None
    else Some(Evicted(IdsOf(w.turns[before..after]),
                      SatSub(w.WindowTokens(before, line), w.WindowTokens(after, line)), w.counter.id, policy))
  }

  /** Every bucket but the history's: the note is charged to the block it renders in. */
  function FixedBuckets(system: string, note: Option<string>, tools: string, outline: string, code: seq<Fragment>,
                        prompt: string, reserve: Option<nat>, c: TokenCounter): Buckets
  {
    Buckets(c.count(system) + (match note case Some(text) => c.count(text) case None => 0), c.count(tools),
            c.count(outline), 0, 0, CodeTokens(code, c), c.count(prompt), reserve)
  }

  /** A reserve is kept against a limit that is known, and is nothing against none. */
  function Headroom(budget: Budget): Option<nat> {
    if budget.limit.Some? then Some(budget.reserve) else None
  }

  /** The two ratchets, as a budget moves them. */
  predicate Ratcheted(w: Window, fixed: nat, budget: Budget, floor: nat, pruned: nat, cut: nat, line: nat)
    requires floor <= |w.turns| && pruned <= |w.turns|
  {
    match budget.limit
    case None => cut == floor && line == pruned
    case Some(limit) =>
      var available := SatSub(limit, fixed);
      var target := Target(budget.eviction, available);
      line == DecidedLine(w, floor, pruned, budget.prune, available, target)
      && cut == DecidedFloor(w, floor, line, available, target)
  }

  // ------------------------------------------------------------- what the decision means

  /** No window of whole items from the floor on is dearer than what there is. */
  predicate EverythingFits(w: Window, floor: nat, available: nat, line: nat) {
    forall k | 0 <= k < |w.Items(floor)| :: w.SuffixCost(w.Items(floor), k, line) <= available
  }

  /** Item `k` starts the longest run, grown backwards, that stays within the target. */
  predicate LongestRun(w: Window, floor: nat, target: nat, line: nat, k: nat)
    requires k <= |w.Items(floor)|
  {
    && (forall j | k <= j < |w.Items(floor)| :: w.SuffixCost(w.Items(floor), j, line) <= target)
    && (k > 0 ==> w.SuffixCost(w.Items(floor), k - 1, line) > target)
  }

  /** The floor stays where everything fits, and otherwise goes where the longest run
      within the target starts. */
  ghost predicate FloorAsNeeded(w: Window, floor: nat, line: nat, available: nat, target: nat, cut: nat) {
    if EverythingFits(w, floor, available, line) then cut == floor
    else exists k | 0 <= k <= |w.Items(floor)| ::
           LongestRun(w, floor, target, line, k) && cut == StartOf(w.Items(floor), k, |w.turns|)
  }

  /** The line stays where pruning is off or everything fits, and otherwise goes to the
      first that meets the target, or where none does to the first of the smallest. */
  ghost predicate LineAsNeeded(w: Window, floor: nat, pruned: nat, prune: Prune, available: nat, target: nat, line: nat) {
    if prune.Never? || EverythingFits(w, floor, available, pruned) then line == pruned
    else
      && Max(pruned, floor) <= line <= |w.turns|
      && if exists l | Max(pruned, floor) <= l <= |w.turns| :: w.WindowTokens(floor, l) <= target
         then w.WindowTokens(floor, line) <= target
              && forall l | Max(pruned, floor) <= l < line :: w.WindowTokens(floor, l) > target
         else (forall l | Max(pruned, floor) <= l <= |w.turns| :: w.WindowTokens(floor, line) <= w.WindowTokens(floor, l))
              && forall l | Max(pruned, floor) <= l < line :: w.WindowTokens(floor, line) < w.WindowTokens(floor, l)
  }

  ghost predicate MovedAsNeeded(w: Window, fixed: nat, budget: Budget, floor: nat, pruned: nat, cut: nat, line: nat) {
    match budget.limit
    case None => cut == floor && line == pruned
    case Some(limit) =>
      var available := if fixed <= limit then limit - fixed else 0;
      var target := match budget.eviction case ByTurn => available case ByBlock(lowWater) => lowWater(available);
      && LineAsNeeded(w, floor, pruned, budget.prune, available, target, line)
      && FloorAsNeeded(w, floor, line, available, target, cut)
  }

  lemma FitsFromStays(w: Window, floor: nat, available: nat, line: nat)
    requires floor <= |w.turns|
    ensures w.FitsFrom(floor, available, line) > floor <==> !EverythingFits(w, floor, available, line)
  {
    hide Window.SuffixCost;
    var items := w.Items(floor);
    var fit := w.FitIndex(items, available, line, |items|);
    FitIndexMeaning(w, items, available, line, |items|);
    ItemsHold(w.turns, w.jobs, floor);
    if items != [] {
      assert items[0].First() == floor;
    }
    if fit > 0 {
      StartsIncreaseStrictly(w, floor, 0, fit);
    }
  }

  lemma OneLongestRun(w: Window, floor: nat, target: nat, line: nat, k: nat)
    requires k <= |w.Items(floor)|
    ensures LongestRun(w, floor, target, line, k) <==> k == w.FitIndex(w.Items(floor), target, line, |w.Items(floor)|)
  {
    hide Window.SuffixCost;
    FitIndexMeaning(w, w.Items(floor), target, line, |w.Items(floor)|);
  }

  lemma FloorMovesAsNeeded(w: Window, floor: nat, line: nat, available: nat, target: nat, cut: nat)
    requires floor <= |w.turns|
    ensures cut == DecidedFloor(w, floor, line, available, target) <==> FloorAsNeeded(w, floor, line, available, target, cut)
  {
    hide LongestRun, EverythingFits;
    var items := w.Items(floor);
    FitsFromStays(w, floor, available, line);
    forall k | 0 <= k <= |items|
      ensures LongestRun(w, floor, target, line, k) <==> k == w.FitIndex(items, target, line, |items|)
    {
      OneLongestRun(w, floor, target, line, k);
    }
  }

  lemma LineMovesAsNeeded(w: Window, floor: nat, pruned: nat, prune: Prune, available: nat, target: nat, line: nat)
    requires floor <= |w.turns| && pruned <= |w.turns|
    ensures line == DecidedLine(w, floor, pruned, prune, available, target)
       <==> LineAsNeeded(w, floor, pruned, prune, available, target, line)
  {
    hide EverythingFits, Window.PruneLine, Window.WindowTokens, Window.FitsFrom;
    FitsFromStays(w, floor, available, pruned);
    PruneLineMeaning(w, floor, target, Max(pruned, floor), line);
  }

  /** The decision, whole and under any counter: what the ratchets do is exactly what is
      needed, and nothing else is. */
  lemma DecidesWhatIsNeeded(w: Window, fixed: nat, budget: Budget, floor: nat, pruned: nat, cut: nat, line: nat)
    requires floor <= |w.turns| && pruned <= |w.turns|
    ensures Ratcheted(w, fixed, budget, floor, pruned, cut, line)
       <==> MovedAsNeeded(w, fixed, budget, floor, pruned, cut, line)
  {
    hide LineAsNeeded, FloorAsNeeded, DecidedLine, DecidedFloor;
    if budget.limit.Some? {
      var available := SatSub(budget.limit.value, fixed);
      var target := Target(budget.eviction, available);
      LineMovesAsNeeded(w, floor, pruned, budget.prune, available, target, line);
      FloorMovesAsNeeded(w, floor, line, available, target, cut);
    }
  }

  /** Priced by an additive counter over honest counts, whole windows decide: nothing is
      evicted from one that fits, and the cut is the first boundary to meet the target. */
  lemma NothingGoesThatFits(w: Window, fixed: nat, budget: Budget, floor: nat, pruned: nat, cut: nat, line: nat)
    requires Additive(w.counter) && Counted(w)
    requires floor <= |w.turns| && pruned <= |w.turns| && budget.limit.Some?
    requires Ratcheted(w, fixed, budget, floor, pruned, cut, line)
    ensures var available := if fixed <= budget.limit.value then budget.limit.value - fixed else 0;
            var target := match budget.eviction case ByTurn => available case ByBlock(lowWater) => lowWater(available);
            var items := w.Items(floor);
            && (budget.prune.Never? || w.WindowTokens(floor, pruned) <= available ==> line == pruned)
            && (w.WindowTokens(floor, line) <= available ==> cut == floor)
            && (w.WindowTokens(floor, line) > available ==>
                  forall k | 0 <= k <= |items| ::
                    w.WindowTokens(StartOf(items, k, |w.turns|), line) <= target <==> cut <= StartOf(items, k, |w.turns|))
  {
    hide Additive, Counted, Window.WindowTokens, Window.PruneLine, Window.FitsFrom, Window.Items, StartOf;
    var available := SatSub(budget.limit.value, fixed);
    var target := Target(budget.eviction, available);
    WholeWindowDecides(w, floor, available, pruned);
    WholeWindowDecides(w, floor, available, line);
    forall k | 0 <= k <= |w.Items(floor)|
      ensures w.WindowTokens(StartOf(w.Items(floor), k, |w.turns|), line) <= target
         <==> w.FitsFrom(floor, target, line) <= StartOf(w.Items(floor), k, |w.turns|)
    {
      FitsFromIsLongest(w, floor, target, line, k);
    }
  }

  lemma WholeWindowDecides(w: Window, floor: nat, available: nat, line: nat)
    requires Additive(w.counter) && Counted(w) && floor <= |w.turns|
    ensures w.WindowTokens(floor, line) <= available <==> w.FitsFrom(floor, available, line) <= floor
  {
    hide Additive, Counted, Window.WindowTokens, Window.FitsFrom;
    var items := w.Items(floor);
    FitsFromIsLongest(w, floor, available, line, 0);
    if items != [] {
      assert items[0].First() == floor;
    }
  }

  // ------------------------------------------------------------------ what is reported

  /** Places in a list, in order and each once. */
  predicate Places(places: seq<nat>, n: nat) {
    && (forall i | 0 <= i < |places| :: places[i] < n)
    && (forall i, j | 0 <= i < j < |places| :: places[i] < places[j])
  }

  lemma {:induction false} IdsInOrder(turns: seq<Turn>)
    ensures |IdsOf(turns)| == |turns| && forall i | 0 <= i < |turns| :: IdsOf(turns)[i] == turns[i].id
  {
    if turns != [] {
      IdsInOrder(turns[..|turns| - 1]);
    }
  }

  /** The places of the turns that have something to give up. */
  ghost predicate GivingUp(w: Window, turns: seq<Turn>, places: seq<nat>) {
    && (forall p | p in places :: p < |turns| && GivesUp(w, turns[p]))
    && (forall i | 0 <= i < |turns| && GivesUp(w, turns[i]) :: i in places)
  }

  /** The ids of the turns at those places, which are in order. */
  predicate IdsAt(turns: seq<Turn>, places: seq<nat>, ids: seq<TurnId>) {
    Places(places, |turns|) && |ids| == |places| && forall i | 0 <= i < |ids| :: ids[i] == turns[places[i]].id
  }

  lemma NothingToGive(w: Window)
    ensures GivingUp(w, [], [])
  {
  }

  lemma GivingUpMore(w: Window, turns: seq<Turn>, last: Turn, places: seq<nat>)
    requires GivingUp(w, turns, places)
    ensures GivingUp(w, turns + [last], if GivesUp(w, last) then places + [|turns|] else places)
  {
    hide GivesUp;
    var more := if GivesUp(w, last) then places + [|turns|] else places;
    forall p | p in more ensures p <= |turns| && GivesUp(w, (turns + [last])[p]) {
      assert p in places || (p == |turns| && GivesUp(w, last));
    }
    forall i | 0 <= i <= |turns| && GivesUp(w, (turns + [last])[i]) ensures i in more {
      if i < |turns| {
        assert i in places;
      } else {
        assert more[|more| - 1] == i;
      }
    }
  }

  /** The turns reported as pruned are those with something to give up: all of them, in
      their order, and no other. */
  lemma {:induction false} GaveUpInOrder(w: Window, turns: seq<Turn>) returns (places: seq<nat>)
    ensures GivingUp(w, turns, places) && IdsAt(turns, places, GaveUp(w, turns))
  {
    hide GivesUp, GivingUp;
    if turns == [] {
      NothingToGive(w);
      return [];
    }
    var n := |turns| - 1;
    var front := turns[..n];
    var before := GaveUpInOrder(w, front);
    places := if GivesUp(w, turns[n]) then before + [n] else before;
    assert turns == front + [turns[n]];
    GivingUpMore(w, front, turns[n], before);
    assert IdsAt(front, before, GaveUp(w, front));
  }

  /** A report of the line: there is one exactly when it moved, it names the turns between
      that had something to give up, and it claims exactly what one window is below the other. */
  ghost predicate LineReported(w: Window, floor: nat, before: nat, after: nat, report: Option<PruneReport>) {
    && (report.Some? <==> before < after)
    && (report.Some? ==>
          && Max(before, floor) <= after <= |w.turns|
          && report.value.counter == w.counter.id
          && report.value.tokens + w.WindowTokens(floor, after) == w.WindowTokens(floor, before)
          && var turns := w.turns[Max(before, floor)..after];
             exists places :: GivingUp(w, turns, places) && IdsAt(turns, places, report.value.turns))
  }

  /** A report of the floor: there is one exactly when it moved, and it names every turn
      the cut dropped. */
  ghost predicate FloorReported(w: Window, before: nat, after: nat, policy: Eviction, report: Option<Evicted>) {
    && (report.Some? <==> before < after)
    && (report.Some? ==>
          && after <= |w.turns| && |report.value.turns| == after - before
          && (forall i | 0 <= i < after - before :: report.value.turns[i] == w.turns[before + i].id)
          && report.value.policy == policy && report.value.counter == w.counter.id)
  }

  lemma LineReportMeaning(w: Window, floor: nat, pruned: nat, prune: Prune, available: nat, target: nat)
    requires floor <= |w.turns| && pruned <= |w.turns|
    ensures var line := DecidedLine(w, floor, pruned, prune, available, target);
            LineReported(w, floor, pruned, line, LineReport(w, floor, pruned, line))
  {
    hide GaveUp, GivingUp, IdsAt, Window.WindowTokens, Window.FitsFrom, Window.PruneLine;
    var line := DecidedLine(w, floor, pruned, prune, available, target);
    if line > pruned {
      PruningSavesExactly(w, floor, pruned, target);
      var turns := w.turns[Max(pruned, floor)..line];
      var places := GaveUpInOrder(w, turns);
    }
  }

  lemma FloorReportMeaning(w: Window, line: nat, before: nat, after: nat, policy: Eviction)
    requires after <= |w.turns|
    ensures FloorReported(w, before, after, policy, FloorReport(w, line, before, after, policy))
  {
    hide Window.WindowTokens;
    if after > before {
      IdsInOrder(w.turns[before..after]);
    }
  }

  /** What the decision reports is what it did; priced by an additive counter, what the cut
      is said to have freed is exactly what the window lost. */
  lemma ReportsSayWhatMoved(w: Window, fixed: nat, budget: Budget, floor: nat, pruned: nat, cut: nat, line: nat)
    requires floor <= |w.turns| && pruned <= |w.turns| && cut <= |w.turns| && line <= |w.turns|
    requires Ratcheted(w, fixed, budget, floor, pruned, cut, line)
    ensures LineReported(w, floor, pruned, line, LineReport(w, floor, pruned, line))
    ensures FloorReported(w, floor, cut, budget.eviction, FloorReport(w, line, floor, cut, budget.eviction))
    ensures Additive(w.counter) && Counted(w) && cut > floor ==>
      FloorReport(w, line, floor, cut, budget.eviction).value.tokens + w.WindowTokens(cut, line) == w.WindowTokens(floor, line)
  {
    hide Additive, Counted, Window.WindowTokens, Window.FitsFrom, Window.PruneLine, GaveUp, IdsOf, LineReported, FloorReported,
      DecidedLine;
    FloorReportMeaning(w, line, floor, cut, budget.eviction);
    match budget.limit {
      case None => LineReportStill(w, floor, line);
      case Some(limit) =>
        var available := SatSub(limit, fixed);
        var target := Target(budget.eviction, available);
        LineReportMeaning(w, floor, pruned, budget.prune, available, target);
        if Additive(w.counter) && Counted(w) {
          EvictionNeverGrows(w, floor, target, line);
        }
    }
  }

  lemma LineReportStill(w: Window, floor: nat, line: nat)
    requires line <= |w.turns|
    ensures LineReported(w, floor, line, line, LineReport(w, floor, line, line))
  {
  }

  // ------------------------------------------------------------------------ the budget

  /** Where the part that is not negotiable fits the limit, everything does; and where it
      does not, what history is kept costs nothing. */
  predicate WithinLimit(budget: Budget, fixed: nat, sent: Buckets) {
    budget.limit.Some? ==>
      if fixed <= budget.limit.value then sent.Total() <= budget.limit.value else sent.history + sent.summaries == 0
  }

  /** The buckets are the messages: but for the reserve and the tools the native transport
      sends apart, which are charged and not sent, and the objectives of the folds and the
      separators of the system block, which are sent and charged to nobody. */
  predicate Accounted(w: Window, floor: nat, messages: seq<Message>, sent: Buckets, native: bool, separators: nat) {
    MessagesTokens(messages, w.counter) + sent.reserve.GetOr(0) + (if native then sent.tools else 0)
    == sent.Total() + Objectives(w, w.Items(floor)) + separators * w.counter.count("\n\n")
  }

  /** What every selection promises of what it returns, priced by an additive counter over
      honest stored counts. */
  lemma PromisesKept(w: Window, budget: Budget, floor: nat, pruned: nat, cut: nat, line: nat, system: string,
                     tools: string, native: bool, outline: string, note: Option<string>, code: seq<Fragment>, prompt: string)
    requires Additive(w.counter) && Counted(w)
    requires floor <= |w.turns| && pruned <= |w.turns| && cut <= |w.turns|
    requires Ratcheted(w, FixedBuckets(system, note, tools, outline, code, prompt, Headroom(budget), w.counter).Fixed(),
                       budget, floor, pruned, cut, line)
    ensures var asked := FixedBuckets(system, note, tools, outline, code, prompt, Headroom(budget), w.counter);
            var sent := asked.(summaries := SummariesBucket(w, w.Items(cut), line),
                               history := HistoryBucket(w, w.Items(cut), line), code := CodeBucket(w, cut, line, code));
            var blocks := Blocks(tools, native, outline, note);
            && WithinLimit(budget, asked.Fixed(), sent)
            && Accounted(w, cut, Prompt(w, cut, line, WithBlocks(system, blocks), code, prompt), sent, native, |blocks|)
  {
    hide Prompt, HistoryBucket, SummariesBucket, CodeBucket, CodeTokens, Additive, Counted, DecidedLine, DecidedFloor,
      Objectives, MessagesTokens, Blocks, WithBlocks;
    var asked := FixedBuckets(system, note, tools, outline, code, prompt, Headroom(budget), w.counter);
    if budget.limit.Some? {
      BudgetSafety(w, floor, pruned, budget.prune, budget.eviction, budget.limit.value, asked, code);
    }
    PromptIsExact(w, cut, line, WithBlocks(system, Blocks(tools, native, outline, note)), code, prompt);
    SystemBlockTokens(system, tools, native, outline, note, w.counter);
  }
}
