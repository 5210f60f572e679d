/** Pruning under rule A, line by line: what one more pruned turn does to the window, and
    exactly when the window never grows. */
module PruneStep {
  import opened Conversation
  import opened Spans
  import opened Jobs
  import opened Window
  import opened Walks
  import opened Render

  /** The spans of turn `l` that no younger item of the window would go on showing. */
  function OnlyHere(w: Window, items: seq<Item>, m: nat, l: nat): seq<Fragment>
    requires w.Holds(items) && m < |items| && l < |w.turns|
  {
    SuffixHolds(w, items, m + 1);
    Fresh(w.turns[l].code, SetOf(w.AllBodies(items[m + 1..], l + 1)))
  }

  /** What the turn sends once it is pruned: a citation for each span, and its exchange
      under the results policy. */
  function CitedCost(w: Window, l: nat): nat
    requires l < |w.turns|
  {
    SpansTokens(w.turns[l].code, Pruned, w.counter) + Exchange(w.turns[l], w.results, w.counter)
  }

  /** What leaves the window with it: the spans shown only here, and the exchange as it was. */
  function GivenUp(w: Window, items: seq<Item>, m: nat, l: nat): nat
    requires w.Holds(items) && m < |items| && l < |w.turns|
  {
    SpansTokens(OnlyHere(w, items, m, l), Shown(w.current), w.counter) + Exchange(w.turns[l], Kept, w.counter)
  }

  /** Whether pruning the turn at item `m` pays for itself. */
  predicate Pays(w: Window, items: seq<Item>, m: nat)
    requires w.Holds(items) && m < |items| && items[m].Live?
  {
    CitedCost(w, items[m].index) <= GivenUp(w, items, m, items[m].index)
  }

  // ------------------------------------------------------------- nothing else moves with the line

  lemma {:induction false} LineMissesItems(w: Window, items: seq<Item>, l: nat)
    requires w.Holds(items) && forall i | 0 <= i < |items| :: items[i].Live? ==> items[i].index != l
    ensures SumTokens(w, items, l + 1) == SumTokens(w, items, l)
    ensures w.AllBodies(items, l + 1) == w.AllBodies(items, l)
  {
    if items != [] {
      LineMissesItems(w, items[..|items| - 1], l);
    }
  }

  lemma {:induction false} NoBodiesBehind(w: Window, items: seq<Item>, l: nat)
    requires w.Holds(items) && forall i | 0 <= i < |items| :: items[i].Live? ==> items[i].index < l
    ensures w.AllBodies(items, l) == []
  {
    if items != [] {
      NoBodiesBehind(w, items[..|items| - 1], l);
    }
  }

  /** Live items of a window come in the order of their turns. */
  lemma AroundTheLine(w: Window, floor: nat, m: nat, l: nat)
    requires m < |w.Items(floor)| && w.Items(floor)[m] == Live(l)
    ensures var older, younger := w.Items(floor)[..m], w.Items(floor)[m + 1..];
            && w.Items(floor) == older + [Live(l)] + younger
            && (forall i | 0 <= i < |older| :: older[i].Live? ==> older[i].index < l)
            && (forall i | 0 <= i < |younger| :: younger[i].Live? ==> younger[i].index > l)
  {
    var items := w.Items(floor);
    FirstsIncrease(w.turns, w.jobs, floor);
    assert items[m].First() == l;
    var older, younger := items[..m], items[m + 1..];
    forall i | 0 <= i < |older| && older[i].Live? ensures older[i].index < l {
      assert older[i] == items[i] && items[i].First() == items[i].index;
    }
    forall i | 0 <= i < |younger| && younger[i].Live? ensures younger[i].index > l {
      var k := m + 1 + i;
      assert younger[i] == items[k] && items[k].First() == items[k].index;
    }
  }

  // ------------------------------------------------------------------------------------ one step

  /** A window in three: what is already behind the line, one turn, and what is younger. */
  lemma InThree(w: Window, older: seq<Item>, l: nat, younger: seq<Item>, line: nat)
    requires w.Holds(older + [Live(l)] + younger)
    requires l <= line && forall i | 0 <= i < |older| :: older[i].Live? ==> older[i].index < line
    ensures l < |w.turns| && w.Holds(older) && w.Holds(younger)
    ensures w.AllBodies(older + [Live(l)] + younger, line) == OwnSpans(w, l, line) + w.AllBodies(younger, line)
    ensures SumTokens(w, older + [Live(l)] + younger, line)
         == SumTokens(w, older, line) + OwnTokens(w, l, line) + SumTokens(w, younger, line)
  {
    hide Window.PrunedTokens, Window.LiveTokens;
    assert (older + [Live(l)] + younger)[|older|] == Live(l);
    AppendItems(w, older + [Live(l)], younger, line);
    AppendItems(w, older, [Live(l)], line);
    OneItem(w, l, line);
    NoBodiesBehind(w, older, line);
    assert [] + OwnSpans(w, l, line) == OwnSpans(w, l, line);
  }

  function OwnSpans(w: Window, l: nat, line: nat): seq<Fragment>
    requires l < |w.turns|
  {
    if w.repeat.Once? && l >= line then w.turns[l].code else []
  }

  function OwnTokens(w: Window, l: nat, line: nat): nat
    requires l < |w.turns|
  {
    if l < line then w.PrunedTokens(w.turns[l]) else w.LiveTokens(w.turns[l])
  }

  /** Before the line passes, the turn owns what it shares with anything younger. */
  lemma BeforeTheStep(w: Window, older: seq<Item>, l: nat, younger: seq<Item>)
    requires w.Holds(older + [Live(l)] + younger) && w.repeat.Once?
    requires forall i | 0 <= i < |older| :: older[i].Live? ==> older[i].index < l
    ensures l < |w.turns| && w.Holds(older) && w.Holds(younger)
    ensures w.Cost(older + [Live(l)] + younger, l)
         == SumTokens(w, older, l) + w.LiveTokens(w.turns[l]) + SumTokens(w, younger, l)
            - w.Copies(w.turns[l].code, SetOf(w.AllBodies(younger, l))) - w.Copies(w.AllBodies(younger, l), {})
  {
    hide Window.LiveTokens, Window.PrunedTokens, Window.Copies, Window.Cost, Window.Holds, Window.AllBodies, SumTokens;
    InThree(w, older, l, younger, l);
    CostIsSumLessCopies(w, older + [Live(l)] + younger, l);
    var code, theirs := w.turns[l].code, w.AllBodies(younger, l);
    CopiesAppend(w, code, theirs, {});
    CopiesExchange(w, code, theirs, {});
    assert {} + SetOf(theirs) == SetOf(theirs);
  }

  /** And after: the turn has no bodies left, and everything younger owns its own. */
  lemma AfterTheStep(w: Window, older: seq<Item>, l: nat, younger: seq<Item>)
    requires w.Holds(older + [Live(l)] + younger)
    requires forall i | 0 <= i < |older| :: older[i].Live? ==> older[i].index < l
    ensures l < |w.turns| && w.Holds(older) && w.Holds(younger)
    ensures w.Cost(older + [Live(l)] + younger, l + 1)
         == SumTokens(w, older, l + 1) + w.PrunedTokens(w.turns[l]) + SumTokens(w, younger, l + 1)
            - w.Copies(w.AllBodies(younger, l + 1), {})
  {
    hide Window.LiveTokens, Window.PrunedTokens, Window.Copies, Window.Cost, Window.Holds, Window.AllBodies, SumTokens;
    InThree(w, older, l, younger, l + 1);
    CostIsSumLessCopies(w, older + [Live(l)] + younger, l + 1);
    assert OwnSpans(w, l, l + 1) + w.AllBodies(younger, l + 1) == w.AllBodies(younger, l + 1);
  }

  lemma OneItem(w: Window, l: nat, line: nat)
    requires l < |w.turns|
    ensures w.Holds([Live(l)])
    ensures SumTokens(w, [Live(l)], line) == OwnTokens(w, l, line)
    ensures w.AllBodies([Live(l)], line) == OwnSpans(w, l, line)
  {
    hide Window.PrunedTokens, Window.LiveTokens;
    var one := [Live(l)];
    assert one[..|one| - 1] == [] && SumTokens(w, [], line) == 0 && w.AllBodies([], line) == [];
    assert w.AllBodies(one, line) == [] + w.Bodies(Live(l), line);
  }

  lemma CostNeverNegative(w: Window, floor: nat, line: nat)
    requires Additive(w.counter) && Counted(w)
    ensures 0 <= w.Cost(w.Items(floor), line) == w.WindowTokens(floor, line)
  {
    hide Window.Cost;
    var items := w.Items(floor);
    LongerCostsMore(w, items, line, 0, 0);
    assert items[0..] == items;
  }

  /** One more pruned turn: the window trades what only that turn showed, and its exchange,
      for its citations and its exchange under the results policy. */
  lemma PruneStepExact(w: Window, floor: nat, m: nat, l: nat)
    requires Additive(w.counter) && Counted(w) && w.repeat.Once?
    requires m < |w.Items(floor)| && w.Items(floor)[m] == Live(l)
    ensures l < |w.turns|
    ensures w.WindowTokens(floor, l + 1) + GivenUp(w, w.Items(floor), m, l)
         == w.WindowTokens(floor, l) + CitedCost(w, l)
  {
    hide Window.Cost, Window.WindowTokens, Window.LiveTokens, Window.PrunedTokens, Window.Copies, Window.AllBodies,
      SumTokens, Exchange, Additive, Counted, SpansTokens, Fresh, Repeats;
    var items := w.Items(floor);
    var older, younger := items[..m], items[m + 1..];
    AroundTheLine(w, floor, m, l);
    BeforeTheStep(w, older, l, younger);
    AfterTheStep(w, older, l, younger);
    LineMissesItems(w, older, l);
    LineMissesItems(w, younger, l);
    LiveTokensExact(w, l);
    PrunedTokensExact(w, l);
    CopiesAreRepeats(w, w.turns[l].code, SetOf(w.AllBodies(younger, l)));
    CostNeverNegative(w, floor, l);
    CostNeverNegative(w, floor, l + 1);
  }

  /** The step never makes the window dearer exactly where the pruned turn pays for itself. */
  lemma PruneStepPaysExactlyWhen(w: Window, floor: nat, m: nat, l: nat)
    requires Additive(w.counter) && Counted(w) && w.repeat.Once?
    requires m < |w.Items(floor)| && w.Items(floor)[m] == Live(l)
    ensures w.WindowTokens(floor, l + 1) <= w.WindowTokens(floor, l) <==> Pays(w, w.Items(floor), m)
  {
    hide CitedCost, GivenUp, Window.WindowTokens;
    PruneStepExact(w, floor, m, l);
  }

  /** A line that passes no live turn changes nothing. */
  lemma PassingNothing(w: Window, floor: nat, l: nat)
    requires forall m | 0 <= m < |w.Items(floor)| :: w.Items(floor)[m] != Live(l)
    ensures w.WindowTokens(floor, l + 1) == w.WindowTokens(floor, l)
  {
    var items := w.Items(floor);
    forall i | 0 <= i < |items| && items[i].Live? ensures items[i].index != l {
      assert items[i] != Live(l);
    }
    LineMissesItems(w, items, l);
    CostIsSumLessCopies(w, items, l);
    CostIsSumLessCopies(w, items, l + 1);
  }

  predicate NeverGrows(w: Window, floor: nat, line: nat) {
    forall l | line <= l < |w.turns| :: w.WindowTokens(floor, l + 1) <= w.WindowTokens(floor, l)
  }

  predicate EveryTurnPays(w: Window, floor: nat, line: nat) {
    forall m | 0 <= m < |w.Items(floor)| ::
      w.Items(floor)[m].Live? && line <= w.Items(floor)[m].index ==> Pays(w, w.Items(floor), m)
  }

  /** Under rule A, moving the line forward from `line` never makes the window dearer if and
      only if every live turn it would pass pays for itself. */
  lemma OncePruneMonotoneExactlyWhen(w: Window, floor: nat, line: nat)
    requires Additive(w.counter) && Counted(w) && w.repeat.Once?
    ensures NeverGrows(w, floor, line) <==> EveryTurnPays(w, floor, line)
  {
    hide Pays, Window.WindowTokens, Additive, Counted;
    var items := w.Items(floor);
    forall m | 0 <= m < |items| && items[m].Live? && line <= items[m].index
      ensures w.WindowTokens(floor, items[m].index + 1) <= w.WindowTokens(floor, items[m].index) <==> Pays(w, items, m)
      ensures items[m].index < |w.turns|
    {
      PruneStepPaysExactlyWhen(w, floor, m, items[m].index);
    }
    if EveryTurnPays(w, floor, line) {
      forall l | line <= l < |w.turns| ensures w.WindowTokens(floor, l + 1) <= w.WindowTokens(floor, l) {
        if m: nat :| m < |items| && items[m] == Live(l) {
          assert Pays(w, items, m);
        } else {
          PassingNothing(w, floor, l);
        }
      }
    }
    if NeverGrows(w, floor, line) {
      forall m | 0 <= m < |items| && items[m].Live? && line <= items[m].index ensures Pays(w, items, m) {
        assert w.WindowTokens(floor, items[m].index + 1) <= w.WindowTokens(floor, items[m].index);
      }
    }
  }

  // ---------------------------------------------------------------------------- where it does grow

  /** A span two turns share: pruning its owner hands the younger turn the whole span, and a
      citation stands where it stood. */
  lemma OncePruneCanGrow(w: Window, f: Fragment)
    requires Additive(w.counter) && Counted(w) && w.repeat.Once? && w.results.Kept?
    requires |w.turns| == 2 && w.turns[0].code == w.turns[1].code == [f]
    requires !ClosedJob(w.jobs, w.turns[0].job) && !ClosedJob(w.jobs, w.turns[1].job)
    ensures w.WindowTokens(0, 1) == w.WindowTokens(0, 0) + SpanTokens(f, Pruned, w.counter)
  {
    hide ClosedJob, Exchange, Additive, SpanTokens, SpansTokens, Window.WindowTokens;
    TwoItems(w);
    var items := w.Items(0);
    PruneStepExact(w, 0, 0, 0);
    assert items[1..] == [Live(1)];
    OneItem(w, 1, 1);
    SharedIsNotOnlyHere(w, f, SetOf(w.AllBodies(items[1..], 1)));
  }

  lemma SharedIsNotOnlyHere(w: Window, f: Fragment, shown: set<Fragment>)
    requires f in shown
    ensures Fresh([f], shown) == [] && SpansTokens([], Shown(w.current), w.counter) == 0
    ensures SpansTokens([f], Pruned, w.counter) == SpanTokens(f, Pruned, w.counter)
  {
    assert [f][1..] == [];
  }

  lemma TwoItems(w: Window)
    requires |w.turns| == 2 && !ClosedJob(w.jobs, w.turns[0].job) && !ClosedJob(w.jobs, w.turns[1].job)
    ensures w.Items(0) == [Live(0), Live(1)]
  {
    assert ItemsFrom(w.turns, w.jobs, 2) == [];
    assert ItemsFrom(w.turns, w.jobs, 1) == [Live(1)] + [];
  }

  /** A counter that prices text by its length. */
  function Characters(): TokenCounter {
    TokenCounter(Approximate, (text: string) => |text|)
  }

  function SharedTurn(id: TurnId): Turn {
    var turn := Turn(id, "why", "because", [], [Fragment("a.rs", "fn a() {}")], 1, 0, Approximate);
    turn.(tokens := TurnTokens(turn, Characters()))
  }

  /** Two turns of one draft that were handed the same span. */
  function SharedSession(): Window {
    Window([SharedTurn(1), SharedTurn(2)], [Draft(1, "why")], Characters(), Once, Kept, Current([]))
  }

  /** An input on which pruning makes the window dearer. */
  lemma PruningGrowsASharedSession()
    ensures var w := SharedSession();
            Additive(w.counter) && Counted(w) && w.repeat.Once? && w.WindowTokens(0, 0) < w.WindowTokens(0, 1)
  {
    hide TurnTokens, Window.WindowTokens;
    var w, f := SharedSession(), Fragment("a.rs", "fn a() {}");
    TurnTokensIgnore(SharedTurn(1), 0);
    TurnTokensIgnore(SharedTurn(2), 0);
    OncePruneCanGrow(w, f);
    assert SpanTokens(f, Pruned, w.counter) == |SpanText(f, Pruned, w.counter)|;
    assert |FragmentText(f)| > 0 && |Citation(f, "pruned", w.counter)| > 0;
  }

  lemma TurnTokensIgnore(turn: Turn, tokens: nat)
    ensures TurnTokens(turn.(tokens := tokens), Characters()) == TurnTokens(turn, Characters())
  {
  }
}
