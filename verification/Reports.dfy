/** What a render says it left out: the spans rule A did not send again, and the stale
    bodies that went out as citations. */
module Reports {
  import opened Conversation
  import opened Spans
  import opened Window
  import opened Walks
  import opened Render
  import opened SharedSpans

  datatype Repeated = Repeated(turns: seq<TurnId>, asking: bool, spans: nat, tokens: nat, counter: CounterId)

  datatype Superseded = Superseded(path: string, turns: seq<TurnId>, spans: nat, tokens: nat, counter: CounterId)

  // ------------------------------------------------------------------------------ kept out by rule A

  /** What an item does not send because an older one shows it. */
  function ItemDropped(w: Window, item: Item, pruned: nat, shown: set<Fragment>): seq<Fragment>
    requires item.Live? ==> item.index < |w.turns|
  {
    if item.Live? && item.index >= pruned then DroppedSpans(w.repeat, w.turns[item.index].code, shown) else []
  }

  datatype KeptOut = KeptOut(turns: seq<TurnId>, spans: nat, tokens: nat)

  function WithDropped(w: Window, k: KeptOut, item: Item, dropped: seq<Fragment>): KeptOut
    requires item.Live? ==> item.index < |w.turns|
  {
    if dropped == [] || item.Folded? then k
    else KeptOut(k.turns + [w.turns[item.index].id], k.spans + |dropped|,
                 k.tokens + SpansTokens(dropped, Shown(w.current), w.counter))
  }

  function KeptOutBy(w: Window, items: seq<Item>, pruned: nat): KeptOut
    requires w.Holds(items)
  {
    if items == [] then KeptOut([], 0, 0)
    else
      var front, last := items[..|items| - 1], items[|items| - 1];
      WithDropped(w, KeptOutBy(w, front, pruned), last, ItemDropped(w, last, pruned, ShownBy(w, front, pruned)))
  }

  /** The report, of the history and of the question after it; none where nothing was kept out. */
  function RepeatReport(w: Window, history: KeptOut, dropped: seq<Fragment>): Option<Repeated> {
    var spans := history.spans + |dropped|;
    if spans == 0 then None
    else Some(Repeated(history.turns, dropped != [], spans,
                       history.tokens + SpansTokens(dropped, Shown(w.current), w.counter), w.counter.id))
  }

  function QuestionDropped(w: Window, items: seq<Item>, pruned: nat, code: seq<Fragment>): seq<Fragment>
    requires w.Holds(items)
  {
    DroppedSpans(w.repeat, code, ShownBy(w, items, pruned))
  }

  /** The tokens kept out of the history are the copies the forward walk takes back. */
  lemma {:induction false} KeptOutIsTheCopies(w: Window, items: seq<Item>, pruned: nat)
    requires w.Holds(items) && w.repeat.Once?
    ensures KeptOutBy(w, items, pruned).tokens == w.Copies(w.AllBodies(items, pruned), {})
  {
    if items != [] {
      var front, last := items[..|items| - 1], items[|items| - 1];
      var shown := ShownBy(w, front, pruned);
      KeptOutIsTheCopies(w, front, pruned);
      CopiesAppend(w, w.AllBodies(front, pruned), w.Bodies(last, pruned), {});
      assert {} + SetOf(w.AllBodies(front, pruned)) == shown;
      CopiesAreRepeats(w, w.Bodies(last, pruned), shown);
    }
  }

  /** What the report says was kept out is exactly what the rendered buckets are below the
      items' own costs, and what the question gave up. */
  lemma RepeatedIsTheDifference(w: Window, items: seq<Item>, pruned: nat)
    requires Additive(w.counter) && Counted(w) && w.Holds(items) && w.repeat.Once?
    ensures HistoryBucket(w, items, pruned) + SummariesBucket(w, items, pruned) + KeptOutBy(w, items, pruned).tokens
         == SumTokens(w, items, pruned)
  {
    KeptOutIsTheCopies(w, items, pruned);
    CostIsSumLessCopies(w, items, pruned);
    BucketsAreTheCost(w, items, pruned);
  }

  lemma {:induction false} FreshAndRepeats(code: seq<Fragment>, shown: set<Fragment>)
    ensures |Fresh(code, shown)| + |Repeats(code, shown)| == |code|
  {
    if code != [] {
      FreshAndRepeats(code[1..], if code[0] in shown then shown else shown + {code[0]});
    }
  }

  lemma {:induction false} KeptOutCounts(w: Window, items: seq<Item>, pruned: nat)
    requires w.Holds(items) && w.repeat.Once?
    ensures KeptOutBy(w, items, pruned).spans + |ShownSpans(w, items, pruned)| == |w.AllBodies(items, pruned)|
  {
    if items != [] {
      var front, last := items[..|items| - 1], items[|items| - 1];
      KeptOutCounts(w, front, pruned);
      FreshAndRepeats(w.Bodies(last, pruned), ShownBy(w, front, pruned));
    }
  }

  /** Every span carried above the line is either shown or counted as kept out; and nothing
      is reported exactly where no span is carried twice. */
  lemma RepeatedCounts(w: Window, items: seq<Item>, pruned: nat, code: seq<Fragment>)
    requires w.Holds(items) && w.repeat.Once?
    ensures var report := RepeatReport(w, KeptOutBy(w, items, pruned), QuestionDropped(w, items, pruned, code));
            var carried := w.AllBodies(items, pruned) + code;
            var sent := ShownSpans(w, items, pruned) + Fresh(code, ShownBy(w, items, pruned));
            && |sent| + (if report.Some? then report.value.spans else 0) == |carried|
            && (report.None? <==> NoDuplicates(carried))
  {
    var carried := w.AllBodies(items, pruned) + code;
    var sent := ShownSpans(w, items, pruned) + Fresh(code, ShownBy(w, items, pruned));
    KeptOutCounts(w, items, pruned);
    FreshAndRepeats(code, ShownBy(w, items, pruned));
    EverySpanOnceWithTheQuestion(w, items, pruned, code);
    forall f ensures f in sent <==> f in carried {}
    SameMembersSameLength(sent, carried);
  }

  /** A list without duplicates is as long as another of the same members exactly where that
      has none either. */
  lemma SameMembersSameLength(a: seq<Fragment>, b: seq<Fragment>)
    requires NoDuplicates(a) && forall f :: f in a <==> f in b
    ensures |a| == |b| <==> NoDuplicates(b)
    ensures |a| <= |b|
  {
    SizeOfSet(a);
    SizeOfSet(b);
    assert SetOf(a) == SetOf(b);
  }

  lemma {:induction false} SizeOfSet(s: seq<Fragment>)
    ensures |SetOf(s)| <= |s|
    ensures |SetOf(s)| == |s| <==> NoDuplicates(s)
  {
    hide NoDuplicates;
    if s == [] {
      NoneTwice();
      assert SetOf(s) == {};
    } else {
      var front, last := s[..|s| - 1], s[|s| - 1];
      SizeOfSet(front);
      DuplicatesSnoc(front, last);
      assert s == front + [last];
      assert SetOf(s) == SetOf(front) + {last};
      if last in front {
        assert SetOf(s) == SetOf(front);
      }
    }
  }

  lemma NoneTwice()
    ensures NoDuplicates([])
  {
  }

  lemma DuplicatesSnoc(front: seq<Fragment>, last: Fragment)
    ensures NoDuplicates(front + [last]) <==> NoDuplicates(front) && last !in front
  {
    var s := front + [last];
    if NoDuplicates(s) {
      forall i, j | 0 <= i < j < |front| ensures front[i] != front[j] { assert s[i] != s[j]; }
      forall i | 0 <= i < |front| ensures front[i] != last { assert s[i] != s[|front|]; }
    }
  }

  lemma {:induction false} AlwaysKeepsNothingOut(w: Window, items: seq<Item>, pruned: nat)
    requires w.Holds(items) && w.repeat.Always?
    ensures KeptOutBy(w, items, pruned) == KeptOut([], 0, 0)
  {
    if items != [] {
      AlwaysKeepsNothingOut(w, items[..|items| - 1], pruned);
    }
  }

  // ----------------------------------------------------------------------------------- cited bodies

  /** One span that went out as a citation, and the turn that carries it. */
  datatype CitedSpan = CitedSpan(fragment: Fragment, turn: TurnId)

  function CitedSpans(w: Window, kept: seq<Fragment>, turn: TurnId): seq<CitedSpan> {
    if kept == [] then []
    else (if w.current.Superseded(kept[0]) then [CitedSpan(kept[0], turn)] else []) + CitedSpans(w, kept[1..], turn)
  }

  function ItemCited(w: Window, item: Item, pruned: nat, shown: set<Fragment>): seq<CitedSpan>
    requires item.Live? ==> item.index < |w.turns|
  {
    if item.Live? && item.index >= pruned
    then CitedSpans(w, KeptSpans(w.repeat, w.turns[item.index].code, shown), w.turns[item.index].id)
    else []
  }

  function CitedBy(w: Window, items: seq<Item>, pruned: nat): seq<CitedSpan>
    requires w.Holds(items)
  {
    if items == [] then []
    else
      var front, last := items[..|items| - 1], items[|items| - 1];
      CitedBy(w, front, pruned) + ItemCited(w, last, pruned, ShownBy(w, front, pruned))
  }

  /** One more of a path's bodies replaced. */
  function WithCited(s: Superseded, cited: CitedSpan, c: TokenCounter): Superseded {
    Superseded(s.path,
               if s.turns != [] && s.turns[|s.turns| - 1] == cited.turn then s.turns else s.turns + [cited.turn],
               s.spans + 1, s.tokens + SpanTokens(cited.fragment, Bytes, c), c.id)
  }

  function Unreported(path: string, c: TokenCounter): Superseded {
    Superseded(path, [], 0, 0, c.id)
  }

  function NotedCitation(report: seq<Superseded>, cited: CitedSpan, c: TokenCounter): seq<Superseded> {
    if report == [] then [WithCited(Unreported(cited.fragment.path, c), cited, c)]
    else if report[0].path == cited.fragment.path then [WithCited(report[0], cited, c)] + report[1..]
    else [report[0]] + NotedCitation(report[1..], cited, c)
  }

  function SupersededReport(cited: seq<CitedSpan>, c: TokenCounter): seq<Superseded> {
    if cited == [] then []
    else NotedCitation(SupersededReport(cited[..|cited| - 1], c), cited[|cited| - 1], c)
  }

  /** The entry of one path, read off everything that was cited. */
  function EntryOf(cited: seq<CitedSpan>, path: string, c: TokenCounter): Superseded {
    if cited == [] then Unreported(path, c)
    else
      var front, last := cited[..|cited| - 1], cited[|cited| - 1];
      if last.fragment.path == path then WithCited(EntryOf(front, path, c), last, c) else EntryOf(front, path, c)
  }

  predicate OneEntryPerPath(report: seq<Superseded>) {
    forall i, j | 0 <= i < j < |report| :: report[i].path != report[j].path
  }

  predicate Reports(report: seq<Superseded>, path: string) {
    exists i | 0 <= i < |report| :: report[i].path == path
  }

  ghost predicate IsCited(cited: seq<CitedSpan>, path: string) {
    exists one :: one in cited && one.fragment.path == path
  }

  lemma {:induction false} NotedCitationMeaning(report: seq<Superseded>, cited: CitedSpan, c: TokenCounter, s: Superseded)
    requires OneEntryPerPath(report)
    ensures OneEntryPerPath(NotedCitation(report, cited, c))
    ensures forall one | one in NotedCitation(report, cited, c) :: one.path == cited.fragment.path || one in report
    ensures s.path != cited.fragment.path ==> (s in NotedCitation(report, cited, c) <==> s in report)
    ensures s.path == cited.fragment.path ==>
      (s in NotedCitation(report, cited, c) <==>
         if Reports(report, s.path) then exists one | one in report :: one.path == s.path && s == WithCited(one, cited, c)
         else s == WithCited(Unreported(s.path, c), cited, c))
  {
    hide WithCited;
    PathStays(cited, c);
    if report != [] {
      var after, rest := NotedCitation(report, cited, c), report[1..];
      assert forall one :: one in report <==> one == report[0] || one in rest;
      if report[0].path == cited.fragment.path {
        assert after[1..] == rest;
        assert after == [after[0]] + rest;
        assert forall one | one in rest :: one.path != report[0].path;
        assert Reports(report, report[0].path);
      } else {
        NotedCitationMeaning(rest, cited, c, s);
        var noted := NotedCitation(rest, cited, c);
        assert after == [report[0]] + noted;
        EntryCons(report[0], noted, rest, cited.fragment.path);
        assert Reports(report, s.path) <==> report[0].path == s.path || Reports(rest, s.path) by { ReportsCons(report, s.path); }
      }
    }
  }

  lemma PathStays(cited: CitedSpan, c: TokenCounter)
    ensures forall s: Superseded :: WithCited(s, cited, c).path == s.path
  {
  }

  lemma ReportsCons(report: seq<Superseded>, path: string)
    requires report != []
    ensures Reports(report, path) <==> report[0].path == path || Reports(report[1..], path)
  {
    if i :| 0 <= i < |report| && report[i].path == path && i > 0 {
      assert report[1..][i - 1].path == path;
    }
    if i :| 0 <= i < |report[1..]| && report[1..][i].path == path {
      assert report[i + 1].path == path;
    }
  }

  lemma EntryCons(first: Superseded, noted: seq<Superseded>, rest: seq<Superseded>, path: string)
    requires OneEntryPerPath([first] + rest) && OneEntryPerPath(noted) && first.path != path
    requires forall one | one in noted :: one.path == path || one in rest
    ensures OneEntryPerPath([first] + noted)
  {
    var all := [first] + noted;
    forall i, j | 0 <= i < j < |all| ensures all[i].path != all[j].path {
      assert all[j] == noted[j - 1] && all[j] in noted;
      if i > 0 {
        assert all[i] == noted[i - 1];
      } else if all[j] in rest {
        var k :| 0 <= k < |rest| && rest[k] == all[j];
        assert ([first] + rest)[0] == first && ([first] + rest)[k + 1] == rest[k];
      }
    }
  }

  /** The report is exactly one entry for each path cited, holding what was cited of it: the
      turns, oldest first, how many spans, and what their bytes would have cost. */
  lemma {:induction false} SupersededMeaning(cited: seq<CitedSpan>, c: TokenCounter, s: Superseded)
    ensures OneEntryPerPath(SupersededReport(cited, c))
    ensures s in SupersededReport(cited, c) <==> s == EntryOf(cited, s.path, c) && IsCited(cited, s.path)
    ensures Reports(SupersededReport(cited, c), s.path) <==> IsCited(cited, s.path)
  {
    hide WithCited;
    if cited != [] {
      var front, last := cited[..|cited| - 1], cited[|cited| - 1];
      var before := SupersededReport(front, c);
      SupersededMeaning(front, c, s);
      SupersededMeaning(front, c, EntryOf(front, s.path, c));
      EntryPath(front, s.path, c);
      EntryPath(cited, s.path, c);
      NotedCitationMeaning(before, last, c, s);
      NotedCitationMeaning(before, last, c, EntryOf(cited, s.path, c));
      CitedSnoc(cited, s.path);
      ReportsMembers(SupersededReport(cited, c), s.path);
      ReportsMembers(before, s.path);
      if !IsCited(front, s.path) {
        NeverCited(front, s.path, c);
      }
      if one :| one in before && one.path == s.path {
        SupersededMeaning(front, c, one);
      }
    }
  }

  lemma ReportsMembers(report: seq<Superseded>, path: string)
    ensures Reports(report, path) <==> exists one | one in report :: one.path == path
  {
    if one :| one in report && one.path == path {
      var i :| 0 <= i < |report| && report[i] == one;
    }
    if i :| 0 <= i < |report| && report[i].path == path {
      assert report[i] in report;
    }
  }

  lemma {:induction false} EntryPath(cited: seq<CitedSpan>, path: string, c: TokenCounter)
    ensures EntryOf(cited, path, c).path == path
  {
    if cited != [] {
      EntryPath(cited[..|cited| - 1], path, c);
    }
  }

  lemma {:induction false} NeverCited(cited: seq<CitedSpan>, path: string, c: TokenCounter)
    requires !IsCited(cited, path)
    ensures EntryOf(cited, path, c) == Unreported(path, c)
  {
    if cited != [] {
      CitedSnoc(cited, path);
      NeverCited(cited[..|cited| - 1], path, c);
    }
  }

  lemma CitedSnoc(cited: seq<CitedSpan>, path: string)
    requires cited != []
    ensures IsCited(cited, path) <==>
      IsCited(cited[..|cited| - 1], path) || cited[|cited| - 1].fragment.path == path
  {
    var front, last := cited[..|cited| - 1], cited[|cited| - 1];
    assert forall one :: one in cited <==> one in front || one == last;
  }

  // ------------------------------------------------------------------------ what the report is about

  lemma {:induction false} CitedSpansMembers(w: Window, kept: seq<Fragment>, turn: TurnId, one: CitedSpan)
    ensures one in CitedSpans(w, kept, turn) <==>
      one.turn == turn && one.fragment in kept && w.current.Superseded(one.fragment)
  {
    if kept != [] {
      CitedSpansMembers(w, kept[1..], turn, one);
    }
  }

  lemma {:induction false} CitedByMembers(w: Window, items: seq<Item>, pruned: nat, f: Fragment)
    requires w.Holds(items) && w.repeat.Once?
    ensures (exists one :: one in CitedBy(w, items, pruned) && one.fragment == f)
       <==> f in w.AllBodies(items, pruned) && w.current.Superseded(f)
  {
    if items != [] {
      var front, last := items[..|items| - 1], items[|items| - 1];
      var shown := ShownBy(w, front, pruned);
      CitedByMembers(w, front, pruned, f);
      FreshSpans(w.Bodies(last, pruned), shown);
      var mine := ItemCited(w, last, pruned, shown);
      assert forall one :: one in CitedBy(w, items, pruned) <==> one in CitedBy(w, front, pruned) || one in mine;
      if last.Live? && last.index >= pruned {
        var turn := w.turns[last.index];
        forall one ensures one in mine <==>
          one.turn == turn.id && one.fragment in Fresh(turn.code, shown) && w.current.Superseded(one.fragment)
        {
          CitedSpansMembers(w, Fresh(turn.code, shown), turn.id, one);
        }
        if f in Fresh(turn.code, shown) && w.current.Superseded(f) {
          assert CitedSpan(f, turn.id) in mine;
        }
      }
    }
  }

  /** A path is reported exactly when some turn above the line carries a span of it that the
      session, or the question, has since read with other bytes. */
  lemma SupersededExactlyWhen(w: Window, items: seq<Item>, pruned: nat, code: seq<Fragment>, path: string)
    requires w.Holds(items) && w.repeat.Once?
    requires w.current == CurrentOf(Carried(w.turns) + code, w.repeat)
    ensures Reports(SupersededReport(CitedBy(w, items, pruned), w.counter), path)
       <==> exists f | f in w.AllBodies(items, pruned) :: f.path == path && Stale(Carried(w.turns) + code, f)
  {
    var all, cited := Carried(w.turns) + code, CitedBy(w, items, pruned);
    SupersededMeaning(cited, w.counter, Unreported(path, w.counter));
    if one :| one in cited && one.fragment.path == path {
      CitedByMembers(w, items, pruned, one.fragment);
      SupersededMeansStale(all, one.fragment);
      assert one.fragment in w.AllBodies(items, pruned);
    }
    if f :| f in w.AllBodies(items, pruned) && f.path == path && Stale(all, f) {
      SupersededMeansStale(all, f);
      CitedByMembers(w, items, pruned, f);
      var one :| one in cited && one.fragment == f;
      assert IsCited(cited, path);
    }
  }

  lemma {:induction false} NothingCitedAlways(w: Window, items: seq<Item>, pruned: nat)
    requires w.Holds(items) && w.current == Current([])
    ensures CitedBy(w, items, pruned) == []
  {
    if items != [] {
      var front, last := items[..|items| - 1], items[|items| - 1];
      NothingCitedAlways(w, front, pruned);
      if last.Live? && last.index >= pruned {
        NoneSuperseded(w, KeptSpans(w.repeat, w.turns[last.index].code, ShownBy(w, front, pruned)),
                       w.turns[last.index].id);
      }
    }
  }

  lemma {:induction false} NoneSuperseded(w: Window, kept: seq<Fragment>, turn: TurnId)
    requires w.current == Current([])
    ensures CitedSpans(w, kept, turn) == []
  {
    if kept != [] {
      NoneSuperseded(w, kept[1..], turn);
    }
  }
}
