/** What the two cost walks agree on, and what each window rule does to the decision. */
module Walks {
  import opened Conversation
  import opened Spans
  import opened Window

  function SumTokens(w: Window, items: seq<Item>, pruned: nat): nat
    requires w.Holds(items)
  {
    if items == [] then 0
    else SumTokens(w, items[..|items| - 1], pruned) + w.ItemTokens(items[|items| - 1], pruned)
  }

  // ---------------------------------------------------------------- shared spans

  lemma {:induction false} CopiesAppend(w: Window, a: seq<Fragment>, b: seq<Fragment>, shown: set<Fragment>)
    ensures w.Copies(a + b, shown) == w.Copies(a, shown) + w.Copies(b, shown + SetOf(a))
  {
    if a == [] {
      assert a + b == b;
      assert shown + SetOf(a) == shown;
    } else {
      assert (a + b)[1..] == a[1..] + b;
      CopiesAppend(w, a[1..], b, shown + {a[0]});
      assert shown + {a[0]} + SetOf(a[1..]) == shown + SetOf(a);
    }
  }

  lemma {:induction false} CopiesOneMore(w: Window, b: seq<Fragment>, shown: set<Fragment>, x: Fragment)
    ensures w.Copies(b, shown + {x})
         == w.Copies(b, shown) + if x in b && x !in shown then SpanTokens(x, Shown(w.current), w.counter) else 0
  {
    if b != [] {
      if x == b[0] {
        assert shown + {x} + {x} == shown + {x};
      } else {
        CopiesOneMore(w, b[1..], shown + {b[0]}, x);
        assert shown + {b[0]} + {x} == shown + {x} + {b[0]};
      }
    }
  }

  /** Whichever of two lists is walked first owns the shared spans; the copies cost the
      same in all. */
  lemma {:induction false} CopiesExchange(w: Window, a: seq<Fragment>, b: seq<Fragment>, shown: set<Fragment>)
    ensures w.Copies(a, shown) + w.Copies(b, shown + SetOf(a)) == w.Copies(b, shown) + w.Copies(a, shown + SetOf(b))
  {
    if a == [] {
      assert shown + SetOf(a) == shown;
    } else {
      var x, rest := a[0], a[1..];
      CopiesExchange(w, rest, b, shown + {x});
      assert shown + {x} + SetOf(rest) == shown + SetOf(a);
      CopiesOneMore(w, b, shown, x);
      assert shown + {x} + SetOf(b) == shown + SetOf(b) + {x};
    }
  }

  lemma {:induction false} CopiesBounded(w: Window, spans: seq<Fragment>, shown: set<Fragment>)
    ensures w.Copies(spans, shown) <= SpansTokens(spans, Shown(w.current), w.counter)
  {
    if spans != [] {
      CopiesBounded(w, spans[1..], shown + {spans[0]});
    }
  }

  // ------------------------------------------------------------------- the walks

  lemma {:induction false} AppendItems(w: Window, a: seq<Item>, b: seq<Item>, pruned: nat)
    requires w.Holds(a + b)
    ensures w.Holds(a) && w.Holds(b)
    ensures w.AllBodies(a + b, pruned) == w.AllBodies(a, pruned) + w.AllBodies(b, pruned)
    ensures SumTokens(w, a + b, pruned) == SumTokens(w, a, pruned) + SumTokens(w, b, pruned)
  {
    assert w.Holds(a) by { forall i | 0 <= i < |a| ensures a[i] == (a + b)[i] {} }
    assert w.Holds(b) by { forall i | 0 <= i < |b| ensures b[i] == (a + b)[|a| + i] {} }
    if b == [] {
      assert a + b == a;
    } else {
      var front := b[..|b| - 1];
      assert (a + b)[..|a + b| - 1] == a + front;
      AppendItems(w, a, front, pruned);
    }
  }

  /** The forward walk charges every item and takes back every copy. */
  lemma {:induction false} CostIsSumLessCopies(w: Window, items: seq<Item>, pruned: nat)
    requires w.Holds(items)
    ensures w.Cost(items, pruned) == SumTokens(w, items, pruned) - w.Copies(w.AllBodies(items, pruned), {})
  {
    if items != [] {
      var front, last := items[..|items| - 1], items[|items| - 1];
      CostIsSumLessCopies(w, front, pruned);
      CopiesAppend(w, w.AllBodies(front, pruned), w.Bodies(last, pruned), {});
      assert {} + SetOf(w.AllBodies(front, pruned)) == SetOf(w.AllBodies(front, pruned));
    }
  }

  /** The backward step: an item put in front of a window takes over its spans from the
      younger turns, and costs itself less the copies it made redundant. */
  lemma CostPrepend(w: Window, item: Item, rest: seq<Item>, pruned: nat)
    requires w.Holds([item] + rest)
    ensures w.Holds(rest) && (item.Live? ==> item.index < |w.turns|)
    ensures w.Cost([item] + rest, pruned)
         == w.ItemTokens(item, pruned) - w.Copies(w.Bodies(item, pruned), SetOf(w.AllBodies(rest, pruned)))
            + w.Cost(rest, pruned)
  {
    AppendItems(w, [item], rest, pruned);
    assert ([item] + rest)[0] == item;
    CostIsSumLessCopies(w, [item] + rest, pruned);
    CostIsSumLessCopies(w, rest, pruned);
    assert [item][..0] == [];
    var mine, theirs := w.Bodies(item, pruned), w.AllBodies(rest, pruned);
    assert w.AllBodies([item], pruned) == mine;
    CopiesAppend(w, mine, theirs, {});
    CopiesExchange(w, mine, theirs, {});
    assert {} + SetOf(theirs) == SetOf(theirs);
  }

  /** What the window from item `k` has on the screen. */
  function SuffixShown(w: Window, items: seq<Item>, k: nat, pruned: nat): set<Fragment>
    requires w.Holds(items) && k <= |items|
  {
    SuffixHolds(w, items, k);
    SetOf(w.AllBodies(items[k..], pruned))
  }

  lemma EmptySuffix(w: Window, items: seq<Item>, pruned: nat)
    requires w.Holds(items)
    ensures w.SuffixCost(items, |items|, pruned) == 0 && SuffixShown(w, items, |items|, pruned) == {}
  {
    assert items[|items|..] == [];
  }

  /** One step of the backward walk. */
  lemma BackwardStep(w: Window, items: seq<Item>, k: nat, pruned: nat)
    requires w.Holds(items) && 0 < k <= |items|
    ensures w.SuffixCost(items, k - 1, pruned)
         == w.ItemTokens(items[k - 1], pruned)
            - w.Copies(w.Bodies(items[k - 1], pruned), SuffixShown(w, items, k, pruned))
            + w.SuffixCost(items, k, pruned)
  {
    SuffixHolds(w, items, k - 1);
    assert items[k - 1..] == [items[k - 1]] + items[k..];
    CostPrepend(w, items[k - 1], items[k..], pruned);
  }

  lemma BackwardShown(w: Window, items: seq<Item>, k: nat, pruned: nat)
    requires w.Holds(items) && 0 < k <= |items|
    ensures SuffixShown(w, items, k - 1, pruned)
         == SuffixShown(w, items, k, pruned) + SetOf(w.Bodies(items[k - 1], pruned))
  {
    var item, younger := items[k - 1], items[k..];
    SuffixHolds(w, items, k - 1);
    assert items[k - 1..] == [item] + younger;
    AppendItems(w, [item], younger, pruned);
    assert [item][..0] == [];
    assert w.AllBodies([item], pruned) == w.Bodies(item, pruned);
  }

  lemma {:induction false} FitIndexMeaning(w: Window, items: seq<Item>, available: nat, pruned: nat, k: nat)
    requires w.Holds(items) && k <= |items|
    ensures var fit := w.FitIndex(items, available, pruned, k);
            && (forall j | fit <= j < k :: w.SuffixCost(items, j, pruned) <= available)
            && (fit > 0 ==> w.SuffixCost(items, fit - 1, pruned) > available)
  {
    hide Window.SuffixCost;
    if !(k == 0 || w.SuffixCost(items, k - 1, pruned) > available) {
      FitIndexMeaning(w, items, available, pruned, k - 1);
    }
  }

  lemma SuffixHolds(w: Window, items: seq<Item>, k: nat)
    requires w.Holds(items) && k <= |items|
    ensures w.Holds(items[k..])
  {
    forall i | 0 <= i < |items[k..]| ensures items[k..][i] == items[k + i] {}
  }

  lemma CostOfSuffix(w: Window, floor: nat, k: nat, pruned: nat)
    requires floor <= |w.turns| && k <= |w.Items(floor)|
    ensures w.Cost(w.Items(StartOf(w.Items(floor), k, |w.turns|)), pruned) == w.SuffixCost(w.Items(floor), k, pruned)
  {
    ItemsSuffix(w.turns, w.jobs, floor, k);
    SuffixHolds(w, w.Items(floor), k);
  }

  /** Cutting at `cut` drops whole items and keeps whole items. */
  ghost predicate OnBoundary(w: Window, floor: nat, cut: nat) {
    exists k | 0 <= k <= |w.Items(floor)| ::
      cut == StartOf(w.Items(floor), k, |w.turns|) && w.Items(cut) == w.Items(floor)[k..]
  }

  /** Under any counter, the window the backward walk chooses costs at most what was
      available by the forward walk, and starts on an item boundary at or past the floor. */
  lemma FitsFromFits(w: Window, floor: nat, available: nat, pruned: nat)
    requires floor <= |w.turns|
    ensures floor <= w.FitsFrom(floor, available, pruned) <= |w.turns|
    ensures w.WindowTokens(w.FitsFrom(floor, available, pruned), pruned) <= available
    ensures OnBoundary(w, floor, w.FitsFrom(floor, available, pruned))
  {
    var items := w.Items(floor);
    var k := w.FitIndex(items, available, pruned, |items|);
    FitIndexMeaning(w, items, available, pruned, |items|);
    CostOfSuffix(w, floor, k, pruned);
    ItemsSuffix(w.turns, w.jobs, floor, k);
    if k == |items| {
      assert items[k..] == [];
    }
  }

  // ----------------------------------------------------------- honest, additive counts

  /** Stored counts made by the counter in force are counts of the turn as stored. */
  ghost predicate Counted(w: Window) {
    && (forall i | 0 <= i < |w.turns| ::
          w.turns[i].countedBy == w.counter.id ==> w.turns[i].tokens == TurnTokens(w.turns[i], w.counter))
    && (forall i | 0 <= i < |w.jobs| :: w.jobs[i].summary.Some? && w.jobs[i].summary.value.countedBy == w.counter.id
          ==> w.jobs[i].summary.value.tokens == w.counter.count(w.jobs[i].summary.value.text))
  }

  /** What a turn sends besides its spans. */
  function Exchange(turn: Turn, results: Results, c: TokenCounter): nat {
    c.count(turn.prompt) + MessagesTokens(Replay(turn.steps, results, c), c) + c.count(turn.answer)
  }

  /** Where the spans are part of what is corrected, no subtraction saturates. */
  lemma {:induction false} CorrectedExact(w: Window, code: seq<Fragment>, total: nat)
    requires SpansTokens(code, Bytes, w.counter) <= total
    ensures w.Corrected(code, total) + SpansTokens(code, Bytes, w.counter)
         == total + SpansTokens(code, Shown(w.current), w.counter)
  {
    hide SpanTokens, Current.Superseded;
    if code != [] {
      var full, shown := SpanTokens(code[0], Bytes, w.counter), SpanTokens(code[0], Shown(w.current), w.counter);
      CurrentBytes(w.current, code[0], w.counter);
      CorrectedExact(w, code[1..], if w.current.Superseded(code[0]) then total - full + shown else total);
    }
  }

  lemma CurrentBytes(current: Current, f: Fragment, c: TokenCounter)
    ensures !current.Superseded(f) ==> SpanTokens(f, Shown(current), c) == SpanTokens(f, Bytes, c)
  {
  }

  lemma TurnTokensExact(turn: Turn, c: TokenCounter)
    requires Additive(c)
    ensures TurnTokens(turn, c) == SpansTokens(turn.code, Bytes, c) + Exchange(turn, Kept, c)
  {
    UserTextTokens(turn.code, Bytes, turn.prompt, c);
    ReplayTokens(turn.steps, Kept, c);
  }

  /** No subtraction saturates: a live turn costs its spans as shown and its exchange. */
  lemma LiveTokensExact(w: Window, i: nat)
    requires Additive(w.counter) && Counted(w) && i < |w.turns|
    ensures w.LiveTokens(w.turns[i])
         == SpansTokens(w.turns[i].code, Shown(w.current), w.counter) + Exchange(w.turns[i], Kept, w.counter)
  {
    TurnTokensExact(w.turns[i], w.counter);
    CorrectedExact(w, w.turns[i].code, TokensOf(w.turns[i], w.counter));
  }

  lemma StoredIsCounted(w: Window, i: nat)
    requires Counted(w) && i < |w.turns|
    ensures TokensOf(w.turns[i], w.counter) == TurnTokens(w.turns[i], w.counter)
  {
  }

  /** And a pruned turn its citations and its exchange under the results policy. */
  lemma PrunedTokensExact(w: Window, i: nat)
    requires Additive(w.counter) && Counted(w) && i < |w.turns|
    ensures w.PrunedTokens(w.turns[i])
         == SpansTokens(w.turns[i].code, Pruned, w.counter) + Exchange(w.turns[i], w.results, w.counter)
  {
    hide SpansTokens, ResultsTokens, StepsTokens, Replay, MessagesTokens, TurnTokens, Additive, Counted;
    var turn := w.turns[i];
    assert TokensOf(turn, w.counter) == TurnTokens(turn, w.counter) by { StoredIsCounted(w, i); }
    TurnTokensExact(turn, w.counter);
    ReplayTokens(turn.steps, w.results, w.counter);
    ReplayTokens(turn.steps, Kept, w.counter);
    ResultsNeverDearer(turn.steps, w.results, w.counter);
  }

  /** An item never costs less than the copies it can make redundant. */
  lemma ItemCoversCopies(w: Window, item: Item, pruned: nat, shown: set<Fragment>)
    requires Additive(w.counter) && Counted(w) && (item.Live? ==> item.index < |w.turns|)
    ensures w.Copies(w.Bodies(item, pruned), shown) <= w.ItemTokens(item, pruned)
  {
    CopiesBounded(w, w.Bodies(item, pruned), shown);
    if item.Live? && item.index >= pruned {
      LiveTokensExact(w, item.index);
    }
  }

  lemma {:induction false} LongerCostsMore(w: Window, items: seq<Item>, pruned: nat, j: nat, k: nat)
    requires Additive(w.counter) && Counted(w) && w.Holds(items) && j <= k <= |items|
    ensures 0 <= w.SuffixCost(items, k, pruned) <= w.SuffixCost(items, j, pruned)
    decreases |items| - j
  {
    SuffixHolds(w, items, j);
    SuffixHolds(w, items, k);
    if j < |items| {
      assert items[j..] == [items[j]] + items[j + 1..];
      CostPrepend(w, items[j], items[j + 1..], pruned);
      ItemCoversCopies(w, items[j], pruned, SetOf(w.AllBodies(items[j + 1..], pruned)));
      LongerCostsMore(w, items, pruned, j + 1, if k == j then j + 1 else k);
    } else {
      assert items[j..] == [];
    }
  }

  lemma StartsIncreaseStrictly(w: Window, floor: nat, j: nat, k: nat)
    requires j < k <= |w.Items(floor)|
    ensures StartOf(w.Items(floor), j, |w.turns|) < StartOf(w.Items(floor), k, |w.turns|)
  {
    var items := ItemsFrom(w.turns, w.jobs, floor);
    FirstsIncrease(w.turns, w.jobs, floor);
    ItemsHold(w.turns, w.jobs, floor);
    assert items[j].First() < |w.turns|;
    if k < |items| {
      assert items[j].First() < items[k].First();
    }
  }

  lemma StartsIncrease(w: Window, floor: nat, j: nat, k: nat)
    requires j <= k <= |w.Items(floor)|
    ensures StartOf(w.Items(floor), j, |w.turns|) <= StartOf(w.Items(floor), k, |w.turns|)
  {
    if j < k {
      StartsIncreaseStrictly(w, floor, j, k);
    }
  }

  lemma FitIndexIsLongest(w: Window, items: seq<Item>, available: nat, pruned: nat, k: nat)
    requires Additive(w.counter) && Counted(w) && w.Holds(items) && k <= |items|
    ensures w.SuffixCost(items, k, pruned) <= available <==> w.FitIndex(items, available, pruned, |items|) <= k
  {
    hide *;
    var fit := w.FitIndex(items, available, pruned, |items|);
    FitIndexMeaning(w, items, available, pruned, |items|);
    EmptySuffix(w, items, pruned);
    if k < fit {
      LongerCostsMore(w, items, pruned, k, fit - 1);
    }
  }

  /** Under an additive counter the early stop loses nothing: a window of whole items
      fits exactly when it starts at or past the one the walk chose. */
  lemma FitsFromIsLongest(w: Window, floor: nat, available: nat, pruned: nat, k: nat)
    requires Additive(w.counter) && Counted(w)
    requires floor <= |w.turns| && k <= |w.Items(floor)|
    ensures w.WindowTokens(StartOf(w.Items(floor), k, |w.turns|), pruned) <= available
      <==> w.FitsFrom(floor, available, pruned) <= StartOf(w.Items(floor), k, |w.turns|)
  {
    var items := w.Items(floor);
    var fit := w.FitIndex(items, available, pruned, |items|);
    CostOfSuffix(w, floor, k, pruned);
    FitIndexIsLongest(w, items, available, pruned, k);
    if k < fit {
      StartsIncreaseStrictly(w, floor, k, fit);
    } else {
      StartsIncrease(w, floor, fit, k);
    }
  }

  /** Moving the floor up to a later item boundary never costs the window anything. */
  lemma EvictionNeverGrows(w: Window, floor: nat, available: nat, pruned: nat)
    requires Additive(w.counter) && Counted(w) && floor <= |w.turns|
    ensures w.WindowTokens(w.FitsFrom(floor, available, pruned), pruned) <= w.WindowTokens(floor, pruned)
  {
    var items := w.Items(floor);
    var fit := w.FitIndex(items, available, pruned, |items|);
    CostOfSuffix(w, floor, fit, pruned);
    LongerCostsMore(w, items, pruned, 0, fit);
    assert items[0..] == items;
  }

  // ------------------------------------------------------------ a smaller budget cuts deeper

  lemma {:induction false} FitIndexAntitone(w: Window, items: seq<Item>, less: nat, more: nat, pruned: nat, k: nat)
    requires w.Holds(items) && k <= |items| && less <= more
    ensures w.FitIndex(items, more, pruned, k) <= w.FitIndex(items, less, pruned, k)
  {
    if !(k == 0 || w.SuffixCost(items, k - 1, pruned) > less) {
      FitIndexAntitone(w, items, less, more, pruned, k - 1);
    }
  }

  lemma FitsFromAntitone(w: Window, floor: nat, less: nat, more: nat, pruned: nat)
    requires less <= more
    ensures w.FitsFrom(floor, more, pruned) <= w.FitsFrom(floor, less, pruned)
  {
    var items := w.Items(floor);
    FitIndexAntitone(w, items, less, more, pruned, |items|);
    StartsIncrease(w, floor, w.FitIndex(items, more, pruned, |items|), w.FitIndex(items, less, pruned, |items|));
  }

  // ------------------------------------------------------------------- one flag apart

  ghost predicate NothingStale(w: Window) {
    forall i, f | 0 <= i < |w.turns| && f in w.turns[i].code :: !w.current.Superseded(f)
  }

  function WithoutRuleA(w: Window): Window {
    w.(repeat := Always, current := Current([]))
  }

  lemma {:induction false} NothingCorrected(w: Window, code: seq<Fragment>, total: nat)
    requires forall f | f in code :: !w.current.Superseded(f)
    ensures w.Corrected(code, total) == total
  {
    if code != [] {
      NothingCorrected(w, code[1..], total);
    }
  }

  lemma {:induction false} OnceNeverDearer(w: Window, items: seq<Item>, pruned: nat)
    requires w.Holds(items) && NothingStale(w)
    ensures w.Cost(items, pruned) <= WithoutRuleA(w).Cost(items, pruned)
  {
    var v := WithoutRuleA(w);
    CostIsSumLessCopies(w, items, pruned);
    CostIsSumLessCopies(v, items, pruned);
    SameSums(w, items, pruned);
    NoBodiesNoCopies(v, items, pruned);
  }

  lemma {:induction false} SameSums(w: Window, items: seq<Item>, pruned: nat)
    requires w.Holds(items) && NothingStale(w)
    ensures SumTokens(w, items, pruned) == SumTokens(WithoutRuleA(w), items, pruned)
  {
    if items != [] {
      SameSums(w, items[..|items| - 1], pruned);
      var last := items[|items| - 1];
      if last.Live? {
        var turn := w.turns[last.index];
        NothingCorrected(w, turn.code, TokensOf(turn, w.counter));
        NothingCorrected(WithoutRuleA(w), turn.code, TokensOf(turn, w.counter));
      }
    }
  }

  lemma {:induction false} NoBodiesNoCopies(w: Window, items: seq<Item>, pruned: nat)
    requires w.Holds(items) && w.repeat.Always?
    ensures w.AllBodies(items, pruned) == []
  {
    if items != [] {
      NoBodiesNoCopies(w, items[..|items| - 1], pruned);
    }
  }

  lemma {:induction false} FitIndexOneFlag(w: Window, items: seq<Item>, available: nat, pruned: nat, k: nat)
    requires w.Holds(items) && NothingStale(w) && k <= |items|
    ensures w.FitIndex(items, available, pruned, k) <= WithoutRuleA(w).FitIndex(items, available, pruned, k)
  {
    if k > 0 {
      SuffixHolds(w, items, k - 1);
      OnceNeverDearer(w, items[k - 1..], pruned);
      FitIndexOneFlag(w, items, available, pruned, k - 1);
    }
  }

  /** With nothing stale, rule A never makes the cut deeper, whatever the counter. */
  lemma OneFlagApart(w: Window, floor: nat, available: nat, pruned: nat)
    requires NothingStale(w)
    ensures w.FitsFrom(floor, available, pruned) <= WithoutRuleA(w).FitsFrom(floor, available, pruned)
  {
    var items := w.Items(floor);
    FitIndexOneFlag(w, items, available, pruned, |items|);
    StartsIncrease(w, floor, w.FitIndex(items, available, pruned, |items|),
                   WithoutRuleA(w).FitIndex(items, available, pruned, |items|));
  }

  // ---------------------------------------------------------------- pruning, rule by rule

  /** Without rule A, moving the line forward never makes the window dearer: that is what
      the citation guards are for. */
  lemma AlwaysPruneMonotone(w: Window, floor: nat, line: nat, further: nat)
    requires Additive(w.counter) && Counted(w)
    requires w.repeat.Always? && w.current == Current([]) && line <= further
    ensures w.WindowTokens(floor, further) <= w.WindowTokens(floor, line)
  {
    var items := w.Items(floor);
    CostIsSumLessCopies(w, items, line);
    CostIsSumLessCopies(w, items, further);
    NoBodiesNoCopies(w, items, line);
    NoBodiesNoCopies(w, items, further);
    SumsPruneMonotone(w, items, line, further);
  }

  lemma {:induction false} SumsPruneMonotone(w: Window, items: seq<Item>, line: nat, further: nat)
    requires Additive(w.counter) && Counted(w) && w.Holds(items)
    requires w.current == Current([]) && line <= further
    ensures SumTokens(w, items, further) <= SumTokens(w, items, line)
  {
    if items != [] {
      SumsPruneMonotone(w, items[..|items| - 1], line, further);
      var last := items[|items| - 1];
      if last.Live? && line <= last.index < further {
        PruningATurnSaves(w, last.index);
      }
    }
  }

  lemma PruningATurnSaves(w: Window, i: nat)
    requires Additive(w.counter) && Counted(w) && w.current == Current([]) && i < |w.turns|
    ensures w.PrunedTokens(w.turns[i]) <= w.LiveTokens(w.turns[i])
  {
    var turn := w.turns[i];
    LiveTokensExact(w, i);
    PrunedTokensExact(w, i);
    PrunedNeverDearer(turn.code, w.counter);
    NothingSupersededShowsBytes(turn.code, w.counter);
    ExchangeNeverDearer(turn, w.results, w.counter);
  }

  lemma ExchangeNeverDearer(turn: Turn, results: Results, c: TokenCounter)
    ensures Exchange(turn, results, c) <= Exchange(turn, Kept, c)
  {
    ReplayTokens(turn.steps, results, c);
    ReplayTokens(turn.steps, Kept, c);
    ResultsNeverDearer(turn.steps, results, c);
  }

  lemma {:induction false} NothingSupersededShowsBytes(code: seq<Fragment>, c: TokenCounter)
    ensures SpansTokens(code, Shown(Current([])), c) == SpansTokens(code, Bytes, c)
  {
    if code != [] {
      NothingSupersededShowsBytes(code[1..], c);
    }
  }

  /** A line below the floor prunes nothing that is rendered. */
  lemma {:induction false} LineBelowFloor(w: Window, floor: nat, line: nat)
    requires line <= floor
    ensures w.WindowTokens(floor, line) == w.WindowTokens(floor, floor)
  {
    ItemsHold(w.turns, w.jobs, floor);
    SameBehindFloor(w, w.Items(floor), floor, line);
  }

  lemma {:induction false} SameBehindFloor(w: Window, items: seq<Item>, floor: nat, line: nat)
    requires w.Holds(items) && line <= floor && forall i | 0 <= i < |items| :: floor <= items[i].First()
    ensures w.Cost(items, line) == w.Cost(items, floor) && w.AllBodies(items, line) == w.AllBodies(items, floor)
  {
    if items != [] {
      SameBehindFloor(w, items[..|items| - 1], floor, line);
      assert floor <= items[|items| - 1].First();
    }
  }
}
