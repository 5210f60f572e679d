/** The window as it is priced: live turns and folds as items, what an item costs under
    a prune line, and the two walks that decide how much of the history fits. */
module Window {
  import opened Conversation
  import opened Spans
  import opened Jobs

  /** What the history is cut and priced by: a turn as it stands, or all of a closed job. */
  datatype Item = Live(index: nat) | Folded(job: JobId, first: nat)
  {
    function First(): nat {
      match this
      case Live(index) => index
      case Folded(_, first) => first
    }
  }

  function SatSub(a: nat, b: nat): nat {
    if a < b then 0 else a - b
  }

  function RunEnd(turns: seq<Turn>, index: nat, job: JobId): (end: nat)
    requires index <= |turns|
    ensures index <= end <= |turns|
    decreases |turns| - index
  {
    if index < |turns| && turns[index].job == job then RunEnd(turns, index + 1, job) else index
  }

  /** The history from a floor onwards: each run of a closed job's turns is one fold. */
  function ItemsFrom(turns: seq<Turn>, jobs: seq<Job>, floor: nat): seq<Item>
    decreases |turns| - floor
  {
    if floor >= |turns| then []
    else
      var job := turns[floor].job;
      if ClosedJob(jobs, job)
      then [Folded(job, floor)] + ItemsFrom(turns, jobs, RunEnd(turns, floor + 1, job))
      else [Live(floor)] + ItemsFrom(turns, jobs, floor + 1)
  }

  /** Where the window that starts at item `k` starts. */
  function StartOf(items: seq<Item>, k: nat, end: nat): nat {
    if k < |items| then items[k].First() else end
  }

  function SetOf(spans: seq<Fragment>): set<Fragment> {
    set f | f in spans
  }

  function TurnTokens(turn: Turn, c: TokenCounter): nat {
    c.count(UserText(turn.code, Bytes, turn.prompt, c)) + StepsTokens(turn.steps, c) + c.count(turn.answer)
  }

  /** The stored count, unless another counter produced it. */
  function TokensOf(turn: Turn, c: TokenCounter): nat {
    if turn.countedBy == c.id then turn.tokens else TurnTokens(turn, c)
  }

  function SummaryTokensOf(summary: Summary, c: TokenCounter): nat {
    if summary.countedBy == c.id then summary.tokens else c.count(summary.text)
  }

  /** Everything a cost depends on besides the floor and the prune line. */
  datatype Window = Window(turns: seq<Turn>, jobs: seq<Job>, counter: TokenCounter,
                           repeat: Repeat, results: Results, current: Current)
  {
    predicate Holds(items: seq<Item>) {
      forall i | 0 <= i < |items| :: items[i].Live? ==> items[i].index < |turns|
    }

    function Items(floor: nat): (items: seq<Item>)
      ensures Holds(items)
    {
      ItemsHold(turns, jobs, floor);
      ItemsFrom(turns, jobs, floor)
    }

    /** A live turn above the line: stale spans go out as the line that cites them. */
    function Corrected(code: seq<Fragment>, total: nat): nat {
      if code == [] then total
      else if current.Superseded(code[0])
      then Corrected(code[1..], SatSub(total, SpanTokens(code[0], Bytes, counter))
                                + SpanTokens(code[0], Shown(current), counter))
      else Corrected(code[1..], total)
    }

    function LiveTokens(turn: Turn): nat {
      Corrected(turn.code, TokensOf(turn, counter))
    }

    /** A turn behind the line: its spans as citations, and its results as the policy
        sends them. `Results.Kept` has no second subtraction to saturate. */
    function PrunedTokens(turn: Turn): nat {
      var stored := SatSub(TokensOf(turn, counter), SpansTokens(turn.code, Bytes, counter))
                    + SpansTokens(turn.code, Pruned, counter);
      if results.Kept? then stored
      else SatSub(stored, ResultsTokens(turn.steps, Kept, counter)) + ResultsTokens(turn.steps, results, counter)
    }

    function ItemTokens(item: Item, pruned: nat): nat
      requires item.Live? ==> item.index < |turns|
    {
      match item
      case Live(index) => if index < pruned then PrunedTokens(turns[index]) else LiveTokens(turns[index])
      case Folded(job, _) =>
        var found := FindJob(jobs, job);
        if found.Some? && found.value.summary.Some? then SummaryTokensOf(found.value.summary.value, counter) else 0
    }

    /** The spans an item puts on the screen under rule A. A fold and a
        pruned turn own none. */
    function Bodies(item: Item, pruned: nat): seq<Fragment>
      requires item.Live? ==> item.index < |turns|
    {
      if repeat.Once? && item.Live? && item.index >= pruned then turns[item.index].code else []
    }

    function AllBodies(items: seq<Item>, pruned: nat): seq<Fragment>
      requires Holds(items)
    {
      if items == [] then []
      else AllBodies(items[..|items| - 1], pruned) + Bodies(items[|items| - 1], pruned)
    }

    /** What the copies among `spans` would have cost, given what is already shown. */
    function Copies(spans: seq<Fragment>, shown: set<Fragment>): nat {
      if spans == [] then 0
      else (if spans[0] in shown then SpanTokens(spans[0], Shown(current), counter) else 0)
           + Copies(spans[1..], shown + {spans[0]})
    }

    /** What a list of items costs, oldest first: an item that repeats what an older one
        shows is charged without it. Signed, because an arbitrary counter may price the
        parts above the whole. */
    function Cost(items: seq<Item>, pruned: nat): int
      requires Holds(items)
    {
      if items == [] then 0
      else
        var front, last := items[..|items| - 1], items[|items| - 1];
        Cost(front, pruned) + ItemTokens(last, pruned)
        - Copies(Bodies(last, pruned), SetOf(AllBodies(front, pruned)))
    }

    /** The window that starts at item `k`, priced from its own oldest item. */
    function SuffixCost(items: seq<Item>, k: nat, pruned: nat): int
      requires Holds(items) && k <= |items|
    {
      assert forall i | 0 <= i < |items[k..]| :: items[k..][i] == items[k + i];
      Cost(items[k..], pruned)
    }

    function WindowTokens(floor: nat, pruned: nat): nat {
      var cost := Cost(Items(floor), pruned);
      if cost < 0 then 0 else cost
    }

    /** Growing the window backwards from `items[k..]`, the last point before it first
        exceeds the budget. Each candidate is priced whole, from its own oldest item. */
    function FitIndex(items: seq<Item>, available: nat, pruned: nat, k: nat): (fit: nat)
      requires Holds(items) && k <= |items|
      ensures fit <= k
    {
      if k == 0 || SuffixCost(items, k - 1, pruned) > available then k
      else FitIndex(items, available, pruned, k - 1)
    }

    /** Where the longest run of items that was reached without exceeding the budget begins. */
    function FitsFrom(floor: nat, available: nat, pruned: nat): nat {
      var items := Items(floor);
      StartOf(items, FitIndex(items, available, pruned, |items|), |turns|)
    }

    /** The shallowest prune line from `line` on under which the window fits. */
    function ShallowestFit(floor: nat, target: nat, line: nat): (found: Option<nat>)
      requires line <= |turns|
      ensures found.Some? ==> line <= found.value <= |turns| && WindowTokens(floor, found.value) <= target
      ensures found.Some? ==> forall l | line <= l < found.value :: WindowTokens(floor, l) > target
      ensures found.None? ==> forall l | line <= l <= |turns| :: WindowTokens(floor, l) > target
      decreases |turns| - line
    {
      hide Window.WindowTokens;
      if WindowTokens(floor, line) <= target then Some(line)
      else if line == |turns| then None
      else ShallowestFit(floor, target, line + 1)
    }

    /** The shallowest of the lines from `line` on that leave the window smallest. */
    function Smallest(floor: nat, line: nat): (best: nat)
      requires line <= |turns|
      ensures line <= best <= |turns|
      ensures forall l | line <= l <= |turns| :: WindowTokens(floor, best) <= WindowTokens(floor, l)
      ensures forall l | line <= l < best :: WindowTokens(floor, best) < WindowTokens(floor, l)
      decreases |turns| - line
    {
      hide Window.WindowTokens;
      if line == |turns| then line
      else
        var rest := Smallest(floor, line + 1);
        var here, there := WindowTokens(floor, line), WindowTokens(floor, rest);
        assert forall l | line <= l <= |turns| :: l == line || there <= WindowTokens(floor, l);
        if here <= there then line else rest
    }

    function PruneLine(floor: nat, target: nat, start: nat): (line: nat)
      requires start <= |turns|
      ensures start <= line <= |turns|
    {
      match ShallowestFit(floor, target, start)
      case Some(line) => line
      case None => Smallest(floor, start)
    }
  }

  lemma {:induction false} ItemsHold(turns: seq<Turn>, jobs: seq<Job>, floor: nat)
    ensures forall i | 0 <= i < |ItemsFrom(turns, jobs, floor)| ::
              floor <= ItemsFrom(turns, jobs, floor)[i].First() < |turns|
    decreases |turns| - floor
  {
    if floor < |turns| {
      ItemsHold(turns, jobs, floor + 1);
      ItemsHold(turns, jobs, RunEnd(turns, floor + 1, turns[floor].job));
    }
  }

  /** Cutting the items at `k` is building them again from where item `k` starts: the
      floor lands on an item boundary, and a fold is kept or dropped whole. */
  lemma {:induction false} ItemsSuffix(turns: seq<Turn>, jobs: seq<Job>, floor: nat, k: nat)
    requires floor <= |turns| && k <= |ItemsFrom(turns, jobs, floor)|
    ensures floor <= StartOf(ItemsFrom(turns, jobs, floor), k, |turns|) <= |turns|
    ensures ItemsFrom(turns, jobs, StartOf(ItemsFrom(turns, jobs, floor), k, |turns|))
         == ItemsFrom(turns, jobs, floor)[k..]
    decreases |turns| - floor
  {
    var items := ItemsFrom(turns, jobs, floor);
    if k > 0 {
      var next := if ClosedJob(jobs, turns[floor].job) then RunEnd(turns, floor + 1, turns[floor].job) else floor + 1;
      ItemsSuffix(turns, jobs, next, k - 1);
      assert items[1..] == ItemsFrom(turns, jobs, next);
      assert items[k..] == items[1..][k - 1..];
    } else {
      assert items[0..] == items;
      if floor == |turns| { assert items == []; }
    }
  }

  predicate Increasing(items: seq<Item>) {
    forall i, j | 0 <= i < j < |items| :: items[i].First() < items[j].First()
  }

  lemma {:induction false} FirstsIncrease(turns: seq<Turn>, jobs: seq<Job>, floor: nat)
    ensures Increasing(ItemsFrom(turns, jobs, floor))
    decreases |turns| - floor
  {
    if floor < |turns| {
      var next := if ClosedJob(jobs, turns[floor].job) then RunEnd(turns, floor + 1, turns[floor].job) else floor + 1;
      FirstsIncrease(turns, jobs, next);
      ItemsHold(turns, jobs, next);
      var items := ItemsFrom(turns, jobs, floor);
      assert items[1..] == ItemsFrom(turns, jobs, next);
      forall i, j | 0 <= i < j < |items| ensures items[i].First() < items[j].First() {
        assert items[j] == items[1..][j - 1];
        if i > 0 { assert items[i] == items[1..][i - 1]; }
      }
    }
  }
}
