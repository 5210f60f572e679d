/** What each entry of a render's reports holds, and the order they stand in: read off what
    was sent and cited, not off how the tallies are kept. */
module Entries {
  import opened Conversation
  import opened Spans
  import opened Window
  import opened Render
  import opened SharedSpans
  import opened Reports
  import opened Decision

  // --------------------------------------------------------------------- spans in their order

  /** A span is rendered where it is first carried, unless it is already on the screen. */
  predicate FirstCarried(code: seq<Fragment>, shown: set<Fragment>, i: nat)
    requires i < |code|
  {
    code[i] !in shown && code[i] !in code[..i]
  }

  predicate SpansAt(code: seq<Fragment>, places: seq<nat>, taken: seq<Fragment>) {
    && Places(places, |code|) && |taken| == |places|
    && (forall i | 0 <= i < |places| :: taken[i] == code[places[i]])
  }

  predicate Chosen(code: seq<Fragment>, shown: set<Fragment>, places: seq<nat>, first: bool) {
    forall i | 0 <= i < |code| :: i in places <==> FirstCarried(code, shown, i) == first
  }

  lemma {:induction false} FreshSnoc(code: seq<Fragment>, last: Fragment, shown: set<Fragment>)
    ensures Fresh(code + [last], shown)
         == Fresh(code, shown) + if last in shown || last in code then [] else [last]
    ensures Repeats(code + [last], shown)
         == Repeats(code, shown) + if last in shown || last in code then [last] else []
  {
    if code == [] {
      assert [] + [last] == [last];
    } else {
      assert (code + [last])[1..] == code[1..] + [last] && (code + [last])[0] == code[0];
      FreshSnoc(code[1..], last, if code[0] in shown then shown else shown + {code[0]});
      assert last in code <==> last == code[0] || last in code[1..];
    }
  }

  lemma SpansAtMore(code: seq<Fragment>, last: Fragment, places: seq<nat>, taken: seq<Fragment>)
    requires SpansAt(code, places, taken)
    ensures SpansAt(code + [last], places, taken) && SpansAt(code + [last], places + [|code|], taken + [last])
  {
  }

  lemma ChosenMore(code: seq<Fragment>, last: Fragment, shown: set<Fragment>, places: seq<nat>, first: bool)
    requires Chosen(code, shown, places, first) && Places(places, |code|)
    ensures Chosen(code + [last], shown,
                   if (last !in shown && last !in code) == first then places + [|code|] else places, first)
  {
    var more := if (last !in shown && last !in code) == first then places + [|code|] else places;
    var all := code + [last];
    forall i | 0 <= i <= |code| ensures i in more <==> FirstCarried(all, shown, i) == first {
      assert all[..i] == code[..i];
      if i < |code| {
        assert i in places <==> FirstCarried(code, shown, i) == first;
      } else {
        assert code[..i] == code && |code| !in places;
        if (last !in shown && last !in code) == first { assert more[|more| - 1] == |code|; }
      }
    }
  }

  lemma NothingCarried(shown: set<Fragment>, first: bool)
    ensures SpansAt([], [], []) && Chosen([], shown, [], first)
  {
  }

  /** What a turn renders is each span where it is first carried, in the order carried; and
      what it drops is all the rest, in order too. */
  lemma {:induction false} SplitInOrder(code: seq<Fragment>, shown: set<Fragment>)
    returns (kept: seq<nat>, dropped: seq<nat>)
    ensures SpansAt(code, kept, Fresh(code, shown)) && Chosen(code, shown, kept, true)
    ensures SpansAt(code, dropped, Repeats(code, shown)) && Chosen(code, shown, dropped, false)
  {
    hide SpansAt, Chosen, Places;
    if code == [] {
      NothingCarried(shown, true);
      NothingCarried(shown, false);
      return [], [];
    }
    var front, last := code[..|code| - 1], code[|code| - 1];
    kept, dropped := SplitInOrder(front, shown);
    assert code == front + [last];
    FreshSnoc(front, last, shown);
    SpansAtMore(front, last, kept, Fresh(front, shown));
    SpansAtMore(front, last, dropped, Repeats(front, shown));
    PlacesOf(front, kept, Fresh(front, shown));
    PlacesOf(front, dropped, Repeats(front, shown));
    ChosenMore(front, last, shown, kept, true);
    ChosenMore(front, last, shown, dropped, false);
    if last in shown || last in front {
      assert Fresh(code, shown) == Fresh(front, shown) && Repeats(code, shown) == Repeats(front, shown) + [last];
      dropped := dropped + [|front|];
    } else {
      assert Fresh(code, shown) == Fresh(front, shown) + [last] && Repeats(code, shown) == Repeats(front, shown);
      kept := kept + [|front|];
    }
  }

  lemma PlacesOf(code: seq<Fragment>, places: seq<nat>, taken: seq<Fragment>)
    requires SpansAt(code, places, taken)
    ensures Places(places, |code|)
  {
  }

  // ------------------------------------------------------------------- paths sent with two bodies

  /** The turns that sent a body of the path, one entry a body, in the order sent. */
  ghost predicate SentBy(sent: seq<SentBody>, path: string, turns: seq<TurnId>, places: seq<nat>) {
    && Places(places, |sent|) && |turns| == |places|
    && (forall i | 0 <= i < |places| :: sent[places[i]].path == path && sent[places[i]].turn == Some(turns[i]))
    && (forall i | 0 <= i < |sent| && sent[i].path == path && sent[i].turn.Some? :: i in places)
  }

  ghost predicate AskedFor(sent: seq<SentBody>, path: string) {
    exists i | 0 <= i < |sent| :: sent[i].path == path && sent[i].turn.None?
  }

  lemma SentByMore(sent: seq<SentBody>, last: SentBody, path: string, turns: seq<TurnId>, places: seq<nat>)
    requires SentBy(sent, path, turns, places)
    ensures if last.path == path && last.turn.Some? then SentBy(sent + [last], path, turns + [last.turn.value], places + [|sent|])
            else SentBy(sent + [last], path, turns, places)
  {
    var all := sent + [last];
    if last.path == path && last.turn.Some? {
      var more := places + [|sent|];
      assert more[|places|] == |sent|;
      forall i | 0 <= i < |all| && all[i].path == path && all[i].turn.Some? ensures i in more {
        if i < |sent| { assert sent[i] == all[i] && i in places; }
      }
    } else {
      forall i | 0 <= i < |all| && all[i].path == path && all[i].turn.Some? ensures i in places {
        assert i < |sent| && sent[i] == all[i];
      }
    }
  }

  lemma AskedForMore(sent: seq<SentBody>, last: SentBody, path: string)
    ensures AskedFor(sent + [last], path) <==> AskedFor(sent, path) || (last.path == path && last.turn.None?)
  {
    var all := sent + [last];
    if i :| 0 <= i < |sent| && sent[i].path == path && sent[i].turn.None? { assert all[i] == sent[i]; }
    if last.path == path && last.turn.None? { assert all[|sent|] == last; }
    if i :| 0 <= i < |all| && all[i].path == path && all[i].turn.None? {
      assert i < |sent| ==> sent[i] == all[i];
    }
  }

  lemma NothingSent(path: string)
    ensures SentBy([], path, [], []) && !AskedFor([], path)
  {
  }

  /** A path's entry names the turns that sent a body of it, in order, and whether the
      question did. */
  lemma {:induction false} TallyHolds(sent: seq<SentBody>, path: string) returns (places: seq<nat>)
    ensures SentBy(sent, path, TallyOf(sent, path).turns, places)
    ensures TallyOf(sent, path).asking <==> AskedFor(sent, path)
  {
    hide SentBy, AskedFor;
    if sent == [] {
      NothingSent(path);
      return [];
    }
    var front, last := sent[..|sent| - 1], sent[|sent| - 1];
    var before := TallyHolds(front, path);
    assert sent == front + [last];
    SentByMore(front, last, path, TallyOf(front, path).turns, before);
    AskedForMore(front, last, path);
    places := if last.path == path && last.turn.Some? then before + [|front|] else before;
  }

  // ------------------------------------------------------------------------ the order of a report

  /** One key came before another: at some point the one had come, and not yet the other. */
  predicate CameFirst(keys: seq<string>, one: string, other: string) {
    exists k | 0 <= k < |keys| :: keys[k] == one && other !in keys[..k + 1]
  }

  /** Every key once, in the order they first came. */
  ghost predicate InFirstOrder(keys: seq<string>, order: seq<string>) {
    && (forall key :: key in order <==> key in keys)
    && (forall i, j | 0 <= i < j < |order| :: CameFirst(keys, order[i], order[j]))
  }

  lemma OneMoreInOrder(keys: seq<string>, order: seq<string>, key: string)
    requires InFirstOrder(keys, order)
    ensures InFirstOrder(keys + [key], if key in order then order else order + [key])
  {
    var all, after := keys + [key], if key in order then order else order + [key];
    forall i, j | 0 <= i < j < |after| ensures CameFirst(all, after[i], after[j]) {
      if j < |order| {
        assert CameFirst(keys, order[i], order[j]);
        var k :| 0 <= k < |keys| && keys[k] == order[i] && order[j] !in keys[..k + 1];
        assert all[k] == keys[k] && all[..k + 1] == keys[..k + 1];
      } else {
        assert order[i] in keys;
        var k :| 0 <= k < |keys| && keys[k] == order[i];
        assert all[k] == keys[k] && all[..k + 1] == keys[..k + 1];
      }
    }
  }

  function PathsSent(sent: seq<SentBody>): (r: seq<string>)
    ensures |r| == |sent| && forall i | 0 <= i < |sent| :: r[i] == sent[i].path
  {
    seq(|sent|, i requires 0 <= i < |sent| => sent[i].path)
  }

  function PathsTallied(tallies: seq<Tally>): (r: seq<string>)
    ensures |r| == |tallies| && forall i | 0 <= i < |tallies| :: r[i] == tallies[i].path
  {
    seq(|tallies|, i requires 0 <= i < |tallies| => tallies[i].path)
  }

  lemma {:induction false} NotingPaths(tallies: seq<Tally>, s: SentBody)
    ensures var before := PathsTallied(tallies);
      PathsTallied(Noting(tallies, s)) == if s.path in before then before else before + [s.path]
  {
    hide PathsTallied, With;
    if tallies == [] {
      var one := With(Tally(s.path, [], [], false), s);
      PathStays(Tally(s.path, [], [], false), s);
      TalliedCons(one, []);
      NoneTallied();
      assert [one] + [] == [one];
    } else {
      var first, rest := tallies[0], tallies[1..];
      assert tallies == [first] + rest;
      TalliedCons(first, rest);
      if first.path == s.path {
        PathStays(first, s);
        TalliedCons(With(first, s), rest);
      } else {
        NotingPaths(rest, s);
        TalliedCons(first, Noting(rest, s));
      }
    }
  }

  lemma PathStays(t: Tally, s: SentBody)
    ensures With(t, s).path == t.path
  {
  }

  lemma NoneTallied()
    ensures PathsTallied([]) == []
  {
  }

  lemma TalliedCons(first: Tally, rest: seq<Tally>)
    ensures PathsTallied([first] + rest) == [first.path] + PathsTallied(rest)
  {
  }

  lemma {:induction false} TalliesInOrder(sent: seq<SentBody>)
    ensures InFirstOrder(PathsSent(sent), PathsTallied(Tallies(sent)))
  {
    hide InFirstOrder;
    if sent == [] {
      NothingInOrder();
    } else {
      var front, last := sent[..|sent| - 1], sent[|sent| - 1];
      TalliesInOrder(front);
      NotingPaths(Tallies(front), last);
      OneMoreInOrder(PathsSent(front), PathsTallied(Tallies(front)), last.path);
      assert PathsSent(sent) == PathsSent(front) + [last.path];
    }
  }

  lemma NothingInOrder()
    ensures InFirstOrder([], [])
  {
  }

  predicate AllInTurn(keys: seq<string>, order: seq<string>) {
    forall i, j | 0 <= i < j < |order| :: CameFirst(keys, order[i], order[j])
  }

  lemma {:induction false} DivergingInTurn(tallies: seq<Tally>, keys: seq<string>)
    requires AllInTurn(keys, PathsTallied(tallies))
    ensures AllInTurn(keys, PathsTallied(Diverging(tallies)))
  {
    hide CameFirst;
    if tallies != [] {
      var rest := tallies[1..];
      forall i, j | 0 <= i < j < |rest| ensures CameFirst(keys, rest[i].path, rest[j].path) {
        assert CameFirst(keys, PathsTallied(tallies)[i + 1], PathsTallied(tallies)[j + 1]);
      }
      DivergingInTurn(rest, keys);
      var some, all := Diverging(rest), Diverging(tallies);
      if |tallies[0].bodies| > 1 {
        assert all == [tallies[0]] + some;
        forall j | 0 <= j < |some| ensures CameFirst(keys, tallies[0].path, some[j].path) {
          DivergingMembers(rest, some[j]);
          var k :| 0 <= k < |rest| && rest[k] == some[j];
          assert CameFirst(keys, PathsTallied(tallies)[0], PathsTallied(tallies)[k + 1]);
        }
        forall i, j | 0 <= i < j < |all| ensures CameFirst(keys, all[i].path, all[j].path) {
          if i > 0 {
            assert CameFirst(keys, PathsTallied(some)[i - 1], PathsTallied(some)[j - 1]);
          }
        }
      } else {
        assert all == some;
      }
    }
  }

  /** The paths that went out with two bodies stand in the order they first went out. */
  lemma DivergedInOrder(sent: seq<SentBody>)
    ensures AllInTurn(PathsSent(sent), PathsTallied(DivergedPaths(sent)))
  {
    hide CameFirst;
    TalliesInOrder(sent);
    DivergingInTurn(Tallies(sent), PathsSent(sent));
  }

  function PathsCited(cited: seq<CitedSpan>): (r: seq<string>)
    ensures |r| == |cited| && forall i | 0 <= i < |cited| :: r[i] == cited[i].fragment.path
  {
    seq(|cited|, i requires 0 <= i < |cited| => cited[i].fragment.path)
  }

  function PathsReported(report: seq<Superseded>): (r: seq<string>)
    ensures |r| == |report| && forall i | 0 <= i < |report| :: r[i] == report[i].path
  {
    seq(|report|, i requires 0 <= i < |report| => report[i].path)
  }

  lemma {:induction false} NotedPaths(report: seq<Superseded>, cited: CitedSpan, c: TokenCounter)
    ensures var before, path := PathsReported(report), cited.fragment.path;
      PathsReported(NotedCitation(report, cited, c)) == if path in before then before else before + [path]
  {
    hide PathsReported, WithCited;
    Reports.PathStays(cited, c);
    if report == [] {
      ReportedCons(WithCited(Unreported(cited.fragment.path, c), cited, c), []);
      NoneReported();
    } else {
      var first, rest := report[0], report[1..];
      assert report == [first] + rest;
      ReportedCons(first, rest);
      if first.path == cited.fragment.path {
        ReportedCons(WithCited(first, cited, c), rest);
      } else {
        NotedPaths(rest, cited, c);
        ReportedCons(first, NotedCitation(rest, cited, c));
      }
    }
  }

  lemma NoneReported()
    ensures PathsReported([]) == []
  {
  }

  lemma ReportedCons(first: Superseded, rest: seq<Superseded>)
    ensures PathsReported([first] + rest) == [first.path] + PathsReported(rest)
  {
  }

  /** The stale paths are reported each once, in the order they were first cited. */
  lemma {:induction false} SupersededInOrder(cited: seq<CitedSpan>, c: TokenCounter)
    ensures InFirstOrder(PathsCited(cited), PathsReported(SupersededReport(cited, c)))
  {
    hide InFirstOrder;
    if cited == [] {
      NothingInOrder();
    } else {
      var front, last := cited[..|cited| - 1], cited[|cited| - 1];
      SupersededInOrder(front, c);
      NotedPaths(SupersededReport(front, c), last, c);
      OneMoreInOrder(PathsCited(front), PathsReported(SupersededReport(front, c)), last.fragment.path);
      assert PathsCited(cited) == PathsCited(front) + [last.fragment.path];
    }
  }

  // ------------------------------------------------------------------- bodies replaced by citations

  /** The citations of one path, in order. */
  function Of(cited: seq<CitedSpan>, path: string): (r: seq<CitedSpan>)
    ensures forall one :: one in r <==> one in cited && one.fragment.path == path
  {
    if cited == [] then []
    else
      var last := cited[|cited| - 1];
      Of(cited[..|cited| - 1], path) + if last.fragment.path == path then [last] else []
  }

  function Cost(cited: seq<CitedSpan>, c: TokenCounter): nat {
    if cited == [] then 0 else Cost(cited[..|cited| - 1], c) + c.count(FragmentText(cited[|cited| - 1].fragment))
  }

  predicate NoTurnTwiceRunning(turns: seq<TurnId>) {
    forall i | 0 <= i < |turns| - 1 :: turns[i] != turns[i + 1]
  }

  ghost predicate TurnsOfCited(cited: seq<CitedSpan>, turns: seq<TurnId>) {
    forall t :: t in turns <==> exists one :: one in cited && one.turn == t
  }

  lemma TurnsOfMore(cited: seq<CitedSpan>, last: CitedSpan, turns: seq<TurnId>)
    requires TurnsOfCited(cited, turns)
    ensures TurnsOfCited(cited + [last], turns + [last.turn])
    ensures last.turn in turns ==> TurnsOfCited(cited + [last], turns)
  {
    var all := cited + [last];
    forall t ensures (exists one :: one in all && one.turn == t) <==> t == last.turn || t in turns {
      if t == last.turn { assert last in all; }
      if one :| one in cited && one.turn == t { assert one in all; }
      if one :| one in all && one.turn == t { assert one in cited || one == last; }
    }
  }

  /** A path's entry counts its spans and the price of their bytes in full, and names each
      turn that carried one, a turn with several once. */
  lemma {:induction false} EntryHolds(cited: seq<CitedSpan>, path: string, c: TokenCounter)
    ensures var entry, mine := EntryOf(cited, path, c), Of(cited, path);
      && entry.path == path && entry.counter == c.id
      && entry.spans == |mine| && entry.tokens == Cost(mine, c)
      && TurnsOfCited(mine, entry.turns) && NoTurnTwiceRunning(entry.turns)
      && (mine != [] ==> entry.turns != [] && entry.turns[|entry.turns| - 1] == mine[|mine| - 1].turn)
  {
    hide TurnsOfCited, WithCited, FragmentText;
    if cited == [] {
      NobodyCited();
    } else {
      var front, last := cited[..|cited| - 1], cited[|cited| - 1];
      EntryHolds(front, path, c);
      var before, mine := EntryOf(front, path, c), Of(front, path);
      if last.fragment.path == path {
        assert (mine + [last])[..|mine|] == mine && Of(cited, path) == mine + [last];
        assert EntryOf(cited, path, c) == WithCited(before, last, c);
        OneMoreCited(before, mine, last, c);
      } else {
        assert Of(cited, path) == mine && EntryOf(cited, path, c) == before;
      }
    }
  }

  lemma OneMoreCited(before: Superseded, mine: seq<CitedSpan>, last: CitedSpan, c: TokenCounter)
    requires TurnsOfCited(mine, before.turns) && NoTurnTwiceRunning(before.turns)
    ensures var after := WithCited(before, last, c);
      && after.path == before.path && after.counter == c.id && after.spans == before.spans + 1
      && after.tokens == before.tokens + c.count(FragmentText(last.fragment))
      && TurnsOfCited(mine + [last], after.turns) && NoTurnTwiceRunning(after.turns)
      && after.turns != [] && after.turns[|after.turns| - 1] == last.turn
  {
    hide TurnsOfCited, FragmentText;
    TurnsOfMore(mine, last, before.turns);
  }

  lemma NobodyCited()
    ensures TurnsOfCited([], [])
  {
  }

  // ----------------------------------------------------------------------- what rule A kept out

  /** An item leaves something out: it is an unpruned turn with a span that an older
      one carries, or one span twice. */
  predicate LeavesOut(w: Window, items: seq<Item>, pruned: nat, k: nat)
    requires w.Holds(items) && k < |items|
  {
    assert w.Holds(items[..k]);
    exists i | 0 <= i < |w.Bodies(items[k], pruned)| ::
      !FirstCarried(w.Bodies(items[k], pruned), ShownBy(w, items[..k], pruned), i)
  }

  lemma SomethingDropped(code: seq<Fragment>, shown: set<Fragment>)
    ensures Repeats(code, shown) != [] <==> exists i | 0 <= i < |code| :: !FirstCarried(code, shown, i)
  {
    hide FirstCarried;
    var kept, dropped := SplitInOrder(code, shown);
    if Repeats(code, shown) != [] {
      assert dropped[0] in dropped;
    }
  }

  predicate TurnsLeavingOut(w: Window, items: seq<Item>, places: seq<nat>, turns: seq<TurnId>) {
    && Places(places, |items|) && |turns| == |places|
    && (forall i | 0 <= i < |places| ::
          items[places[i]].Live? && items[places[i]].index < |w.turns| && turns[i] == w.turns[items[places[i]].index].id)
  }

  predicate AllLeavingOut(w: Window, items: seq<Item>, pruned: nat, places: seq<nat>)
    requires w.Holds(items)
  {
    forall k | 0 <= k < |items| :: k in places <==> LeavesOut(w, items, pruned, k)
  }

  lemma LeavingOutMore(w: Window, items: seq<Item>, pruned: nat, places: seq<nat>, turns: seq<TurnId>)
    requires items != [] && w.Holds(items)
    ensures w.Holds(items[..|items| - 1])
    ensures TurnsLeavingOut(w, items[..|items| - 1], places, turns)
            && AllLeavingOut(w, items[..|items| - 1], pruned, places) ==>
      var n := |items| - 1;
      if LeavesOut(w, items, pruned, n) then
        && AllLeavingOut(w, items, pruned, places + [n])
        && (items[n].Live? ==> TurnsLeavingOut(w, items, places + [n], turns + [w.turns[items[n].index].id]))
      else AllLeavingOut(w, items, pruned, places) && TurnsLeavingOut(w, items, places, turns)
  {
    hide LeavesOut;
    var n := |items| - 1;
    var front := items[..n];
    if TurnsLeavingOut(w, front, places, turns) && AllLeavingOut(w, front, pruned, places) {
      var more := if LeavesOut(w, items, pruned, n) then places + [n] else places;
      forall k | 0 <= k < |items| ensures k in more <==> LeavesOut(w, items, pruned, k) {
        if k < n {
          SameBefore(w, items, pruned, k);
          assert k in places <==> LeavesOut(w, front, pruned, k);
        } else {
          assert n !in places;
          if LeavesOut(w, items, pruned, n) { assert more[|more| - 1] == n; }
        }
      }
    }
  }

  lemma SameBefore(w: Window, items: seq<Item>, pruned: nat, k: nat)
    requires w.Holds(items) && k < |items| - 1
    ensures w.Holds(items[..|items| - 1]) && LeavesOut(w, items[..|items| - 1], pruned, k) == LeavesOut(w, items, pruned, k)
  {
    hide FirstCarried;
    assert items[..|items| - 1][..k] == items[..k];
  }

  /** The report of what rule A kept out names exactly the turns that left something out, in
      the order of the window. */
  lemma {:induction false} KeptOutNames(w: Window, items: seq<Item>, pruned: nat) returns (places: seq<nat>)
    requires w.Holds(items) && w.repeat.Once?
    ensures TurnsLeavingOut(w, items, places, KeptOutBy(w, items, pruned).turns)
    ensures AllLeavingOut(w, items, pruned, places)
  {
    hide TurnsLeavingOut, AllLeavingOut, SpansTokens;
    if items == [] {
      NobodyLeavesOut(w, pruned);
      return [];
    }
    var n := |items| - 1;
    var front, last := items[..n], items[n];
    var before := KeptOutNames(w, front, pruned);
    LeavingOutMore(w, items, pruned, before, KeptOutBy(w, front, pruned).turns);
    SomethingDropped(w.Bodies(last, pruned), ShownBy(w, front, pruned));
    places := if LeavesOut(w, items, pruned, n) then before + [n] else before;
  }

  lemma NobodyLeavesOut(w: Window, pruned: nat)
    ensures TurnsLeavingOut(w, [], [], []) && AllLeavingOut(w, [], pruned, [])
  {
  }

  /** And says the question did exactly where it did. */
  lemma AskingLeavesOut(w: Window, items: seq<Item>, pruned: nat, code: seq<Fragment>)
    requires w.Holds(items) && w.repeat.Once?
    ensures var history := KeptOutBy(w, items, pruned);
      var report := RepeatReport(w, history, QuestionDropped(w, items, pruned, code));
      report.Some? ==>
        && report.value.turns == history.turns && report.value.counter == w.counter.id
        && (report.value.asking <==>
              exists i | 0 <= i < |code| :: !FirstCarried(code, ShownBy(w, items, pruned), i))
  {
    hide FirstCarried, KeptOutBy;
    SomethingDropped(code, ShownBy(w, items, pruned));
  }
}
