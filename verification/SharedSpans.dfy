/** Rule A and its repair: which turn shows a span, which bodies go out, and what the
    divergence report can find in them. */
module SharedSpans {
  import opened Conversation
  import opened Spans
  import opened Window
  import opened Render

  predicate NoDuplicates(spans: seq<Fragment>) {
    forall i, j | 0 <= i < j < |spans| :: spans[i] != spans[j]
  }

  lemma {:induction false} FreshSpans(code: seq<Fragment>, shown: set<Fragment>)
    ensures NoDuplicates(Fresh(code, shown))
    ensures forall f :: f in Fresh(code, shown) <==> f in code && f !in shown
  {
    if code != [] {
      if code[0] in shown {
        FreshSpans(code[1..], shown);
      } else {
        FreshSpans(code[1..], shown + {code[0]});
      }
    }
  }

  /** The spans item `k` renders, in a window of these items. */
  function ShownAt(w: Window, items: seq<Item>, pruned: nat, k: nat): seq<Fragment>
    requires w.Holds(items) && k < |items|
  {
    assert w.Holds(items[..k]);
    Fresh(w.Bodies(items[k], pruned), ShownBy(w, items[..k], pruned))
  }

  /** Every span the items of a window render, in order. */
  function ShownSpans(w: Window, items: seq<Item>, pruned: nat): seq<Fragment>
    requires w.Holds(items)
  {
    if items == [] then []
    else ShownSpans(w, items[..|items| - 1], pruned) + ShownAt(w, items, pruned, |items| - 1)
  }

  lemma {:induction false} AllBodiesMembers(w: Window, items: seq<Item>, pruned: nat, f: Fragment)
    requires w.Holds(items)
    ensures f in w.AllBodies(items, pruned) <==> exists j | 0 <= j < |items| :: f in w.Bodies(items[j], pruned)
  {
    if items != [] {
      var front, last := items[..|items| - 1], items[|items| - 1];
      AllBodiesMembers(w, front, pruned, f);
      forall j | 0 <= j < |front| ensures front[j] == items[j] {}
      if f in w.AllBodies(front, pruned) {
        var j :| 0 <= j < |front| && f in w.Bodies(front[j], pruned);
        assert f in w.Bodies(items[j], pruned);
      }
      if f in w.Bodies(last, pruned) {
        assert f in w.Bodies(items[|items| - 1], pruned);
      }
    }
  }

  /** Ownership: a turn renders a span exactly when it carries it and no older turn of
      this window, above the prune line, does. */
  lemma OldestCarrierOwns(w: Window, items: seq<Item>, pruned: nat, k: nat, f: Fragment)
    requires w.Holds(items) && k < |items|
    ensures f in ShownAt(w, items, pruned, k)
      <==> f in w.Bodies(items[k], pruned) && forall j | 0 <= j < k :: f !in w.Bodies(items[j], pruned)
    ensures NoDuplicates(ShownAt(w, items, pruned, k))
  {
    var before := items[..k];
    FreshSpans(w.Bodies(items[k], pruned), ShownBy(w, before, pruned));
    AllBodiesMembers(w, before, pruned, f);
    forall j | 0 <= j < k ensures before[j] == items[j] {}
    if j :| 0 <= j < k && f in w.Bodies(items[j], pruned) {
      assert f in w.Bodies(before[j], pruned);
    }
  }

  lemma JoinDistinct(a: seq<Fragment>, b: seq<Fragment>)
    requires NoDuplicates(a) && NoDuplicates(b) && forall f | f in b :: f !in a
    ensures NoDuplicates(a + b)
  {
    forall i, j | 0 <= i < j < |a + b| ensures (a + b)[i] != (a + b)[j] {
      if j >= |a| {
        assert (a + b)[j] in b;
      }
    }
  }

  /** Nothing is lost and nothing is shown twice: what the history and the question
      render is each span they carry above the line, once. */
  lemma {:induction false} EverySpanOnce(w: Window, items: seq<Item>, pruned: nat)
    requires w.Holds(items)
    ensures NoDuplicates(ShownSpans(w, items, pruned))
    ensures forall f :: f in ShownSpans(w, items, pruned) <==> f in w.AllBodies(items, pruned)
  {
    if items != [] {
      var front, last := items[..|items| - 1], items[|items| - 1];
      EverySpanOnce(w, front, pruned);
      FreshSpans(w.Bodies(last, pruned), ShownBy(w, front, pruned));
      assert items[..|items| - 1] == front;
      JoinDistinct(ShownSpans(w, front, pruned), ShownAt(w, items, pruned, |items| - 1));
    }
  }

  lemma EverySpanOnceWithTheQuestion(w: Window, items: seq<Item>, pruned: nat, code: seq<Fragment>)
    requires w.Holds(items)
    ensures var all := ShownSpans(w, items, pruned) + Fresh(code, ShownBy(w, items, pruned));
            && NoDuplicates(all)
            && forall f :: f in all <==> f in w.AllBodies(items, pruned) || f in code
  {
    EverySpanOnce(w, items, pruned);
    var unshown := Fresh(code, ShownBy(w, items, pruned));
    FreshSpans(code, ShownBy(w, items, pruned));
    JoinDistinct(ShownSpans(w, items, pruned), unshown);
  }

  // ------------------------------------------------------------------ what actually went out

  /** One body as it was sent: by a turn of the history, or by the question. */
  datatype SentBody = SentBody(path: string, text: string, turn: Option<TurnId>)

  /** The bodies among a turn's rendered spans: a citation is not one. */
  function BodiesSent(w: Window, kept: seq<Fragment>, turn: TurnId): seq<SentBody> {
    if kept == [] then []
    else (if w.current.Superseded(kept[0]) then [] else [SentBody(kept[0].path, kept[0].text, Some(turn))])
         + BodiesSent(w, kept[1..], turn)
  }

  function SentByHistory(w: Window, items: seq<Item>, pruned: nat): seq<SentBody>
    requires w.Holds(items)
  {
    if items == [] then []
    else
      var front, last := items[..|items| - 1], items[|items| - 1];
      SentByHistory(w, front, pruned)
      + if last.Live? && last.index >= pruned
        then BodiesSent(w, KeptSpans(w.repeat, w.turns[last.index].code, ShownBy(w, front, pruned)),
                        w.turns[last.index].id)
        else []
  }

  /** The question sends its own spans as bytes, whatever is known of their paths. */
  function SentByQuestion(kept: seq<Fragment>): seq<SentBody> {
    if kept == [] then [] else [SentBody(kept[0].path, kept[0].text, None)] + SentByQuestion(kept[1..])
  }

  lemma {:induction false} BodiesSentMembers(w: Window, kept: seq<Fragment>, turn: TurnId, s: SentBody)
    ensures s in BodiesSent(w, kept, turn)
      <==> s.turn == Some(turn) && Fragment(s.path, s.text) in kept && !w.current.Superseded(Fragment(s.path, s.text))
  {
    if kept != [] {
      BodiesSentMembers(w, kept[1..], turn, s);
      assert kept[0] == Fragment(kept[0].path, kept[0].text);
    }
  }

  lemma {:induction false} SentByQuestionMembers(kept: seq<Fragment>, s: SentBody)
    ensures s in SentByQuestion(kept) <==> s.turn == None && Fragment(s.path, s.text) in kept
  {
    if kept != [] {
      SentByQuestionMembers(kept[1..], s);
      assert kept[0] == Fragment(kept[0].path, kept[0].text);
    }
  }

  /** Under rule A the history sends, as bytes, exactly the spans carried above the line
      that nobody has read differently since. */
  lemma {:induction false} SentByHistoryMembers(w: Window, items: seq<Item>, pruned: nat, f: Fragment)
    requires w.Holds(items) && w.repeat.Once?
    ensures (exists s :: s in SentByHistory(w, items, pruned) && s.path == f.path && s.text == f.text)
      <==> f in w.AllBodies(items, pruned) && !w.current.Superseded(f)
  {
    if items != [] {
      var front, last := items[..|items| - 1], items[|items| - 1];
      SentByHistoryMembers(w, front, pruned, f);
      if last.Live? && last.index >= pruned {
        var turn := w.turns[last.index];
        var kept := Fresh(turn.code, ShownBy(w, front, pruned));
        FreshSpans(turn.code, ShownBy(w, front, pruned));
        var sent := SentBody(f.path, f.text, Some(turn.id));
        forall s: SentBody | s.path == f.path && s.text == f.text
          ensures s in BodiesSent(w, kept, turn.id) <==> s == sent && f in kept && !w.current.Superseded(f)
        {
          BodiesSentMembers(w, kept, turn.id, s);
        }
        assert SentByHistory(w, items, pruned) == SentByHistory(w, front, pruned) + BodiesSent(w, kept, turn.id);
        if f in kept && !w.current.Superseded(f) {
          assert sent in SentByHistory(w, items, pruned);
        }
      } else {
        assert SentByHistory(w, items, pruned) == SentByHistory(w, front, pruned);
      }
    }
  }

  // ---------------------------------------------------------------------- the newest body wins

  /** Every span the session's turns carry, oldest first, evicted turns included. */
  function Carried(turns: seq<Turn>): seq<Fragment> {
    if turns == [] then [] else Carried(turns[..|turns| - 1]) + turns[|turns| - 1].code
  }

  predicate OneBodyPerPath(code: seq<Fragment>) {
    forall i, j | 0 <= i < j < |code| :: code[i].path == code[j].path ==> code[i].text == code[j].text
  }

  lemma {:induction false} NewestIsThere(carried: seq<Fragment>, path: string)
    ensures NewestBody(carried, path).Some?
      ==> Fragment(path, NewestBody(carried, path).value) in carried
    ensures NewestBody(carried, path).None? ==> forall f | f in carried :: f.path != path
  {
    if carried != [] && carried[|carried| - 1].path != path {
      NewestIsThere(carried[..|carried| - 1], path);
      if NewestBody(carried, path).None? {
        forall f | f in carried ensures f.path != path {
          var i :| 0 <= i < |carried| && carried[i] == f;
          if i < |carried| - 1 { assert carried[..|carried| - 1][i] == f; }
        }
      }
    } else if carried != [] {
      assert carried[|carried| - 1] in carried;
      assert carried[|carried| - 1] == Fragment(path, NewestBody(carried, path).value);
    }
  }

  /** A span of the question is never stale when it reads each path one way. */
  lemma TheQuestionIsCurrent(turns: seq<Turn>, code: seq<Fragment>, f: Fragment)
    requires OneBodyPerPath(code) && f in code
    ensures NewestBody(Carried(turns) + code, f.path) == Some(f.text)
  {
    NewestBodyAppend(Carried(turns), code, f.path);
    NewestIsThere(code, f.path);
    var g := Fragment(f.path, NewestBody(code, f.path).value);
    var i :| 0 <= i < |code| && code[i] == f;
    var j :| 0 <= j < |code| && code[j] == g;
    assert i != j ==> code[i].text == code[j].text;
  }

  lemma {:induction false} AllBodiesCarried(w: Window, items: seq<Item>, pruned: nat, f: Fragment)
    requires w.Holds(items) && f in w.AllBodies(items, pruned)
    ensures f in Carried(w.turns)
  {
    AllBodiesMembers(w, items, pruned, f);
    var j :| 0 <= j < |items| && f in w.Bodies(items[j], pruned);
    CarriedMembers(w.turns, items[j].index, f);
  }

  lemma {:induction false} CarriedMembers(turns: seq<Turn>, i: nat, f: Fragment)
    requires i < |turns| && f in turns[i].code
    ensures f in Carried(turns)
  {
    if i < |turns| - 1 {
      CarriedMembers(turns[..|turns| - 1], i, f);
    }
  }

  ghost predicate SentAs(sent: seq<SentBody>, path: string, text: string) {
    exists s :: s in sent && s.path == path && s.text == text
  }

  /** All the bodies a render under rule A sends above the prune line. */
  function AllSent(w: Window, items: seq<Item>, pruned: nat, code: seq<Fragment>): seq<SentBody>
    requires w.Holds(items)
  {
    SentByHistory(w, items, pruned) + SentByQuestion(KeptSpans(w.repeat, code, ShownBy(w, items, pruned)))
  }

  /** What goes out: the current bodies the history carries, and the question's spans that
      the history does not already stand for. */
  lemma AllSentMeaning(w: Window, items: seq<Item>, pruned: nat, code: seq<Fragment>, f: Fragment)
    requires w.Holds(items) && w.repeat.Once?
    ensures SentAs(AllSent(w, items, pruned, code), f.path, f.text)
      <==> if f in w.AllBodies(items, pruned) then !w.current.Superseded(f) else f in code
  {
    var history, kept := SentByHistory(w, items, pruned), Fresh(code, ShownBy(w, items, pruned));
    var sent := AllSent(w, items, pruned, code);
    SentByHistoryMembers(w, items, pruned, f);
    FreshSpans(code, ShownBy(w, items, pruned));
    forall s: SentBody ensures s in sent <==> s in history || s in SentByQuestion(kept) {}
    forall s: SentBody | s.path == f.path && s.text == f.text
      ensures s in SentByQuestion(kept) <==> s.turn == None && f in kept
    {
      SentByQuestionMembers(kept, s);
    }
    if f in kept {
      assert SentBody(f.path, f.text, None) in sent;
    }
    if s :| s in history && s.path == f.path && s.text == f.text {
      assert s in sent;
    }
  }

  /** No stale bytes: every body above the line is what the newest read of its path got,
      over every turn the session holds and the question. */
  lemma EveryBodyIsNewest(w: Window, items: seq<Item>, pruned: nat, code: seq<Fragment>, f: Fragment)
    requires w.Holds(items) && w.repeat.Once? && OneBodyPerPath(code)
    requires w.current == CurrentOf(Carried(w.turns) + code, w.repeat)
    requires SentAs(AllSent(w, items, pruned, code), f.path, f.text)
    ensures NewestBody(Carried(w.turns) + code, f.path) == Some(f.text)
  {
    AllSentMeaning(w, items, pruned, code, f);
    if f in w.AllBodies(items, pruned) {
      AllBodiesCarried(w, items, pruned, f);
      SupersededMeansStale(Carried(w.turns) + code, f);
      NewestIsThere(Carried(w.turns) + code, f.path);
    } else {
      TheQuestionIsCurrent(w.turns, code, f);
    }
  }

  // ---------------------------------------------------------------------------- divergence

  /** One path's tally: its distinct bodies, the turns that sent one, and whether the
      question did. */
  datatype Tally = Tally(path: string, bodies: seq<string>, turns: seq<TurnId>, asking: bool)

  function With(tally: Tally, s: SentBody): Tally {
    Tally(tally.path,
          if s.text in tally.bodies then tally.bodies else tally.bodies + [s.text],
          if s.turn.Some? then tally.turns + [s.turn.value] else tally.turns,
          tally.asking || s.turn.None?)
  }

  function Noting(tallies: seq<Tally>, s: SentBody): seq<Tally> {
    if tallies == [] then [With(Tally(s.path, [], [], false), s)]
    else if tallies[0].path == s.path then [With(tallies[0], s)] + tallies[1..]
    else [tallies[0]] + Noting(tallies[1..], s)
  }

  function Tallies(sent: seq<SentBody>): seq<Tally> {
    if sent == [] then [] else Noting(Tallies(sent[..|sent| - 1]), sent[|sent| - 1])
  }

  function Diverging(tallies: seq<Tally>): seq<Tally> {
    if tallies == [] then []
    else (if |tallies[0].bodies| > 1 then [tallies[0]] else []) + Diverging(tallies[1..])
  }

  /** The paths that went out with two different bodies or more. */
  function DivergedPaths(sent: seq<SentBody>): seq<Tally> {
    Diverging(Tallies(sent))
  }

  /** The tally of one path, read off the whole list. */
  function TallyOf(sent: seq<SentBody>, path: string): Tally {
    if sent == [] then Tally(path, [], [], false)
    else
      var front, last := sent[..|sent| - 1], sent[|sent| - 1];
      if last.path == path then With(TallyOf(front, path), last) else TallyOf(front, path)
  }

  function Lookup(tallies: seq<Tally>, path: string): (t: Tally)
    ensures t.path == path
  {
    if tallies == [] then Tally(path, [], [], false)
    else if tallies[0].path == path then tallies[0]
    else Lookup(tallies[1..], path)
  }

  predicate OneTallyPerPath(tallies: seq<Tally>) {
    forall i, j | 0 <= i < j < |tallies| :: tallies[i].path != tallies[j].path
  }

  lemma TallyCons(first: Tally, noted: seq<Tally>, rest: seq<Tally>, path: string)
    requires forall t | t in rest :: first.path != t.path
    requires OneTallyPerPath(noted) && first.path != path
    requires forall t | t in noted :: t.path == path || t in rest
    ensures OneTallyPerPath([first] + noted)
  {
    var all := [first] + noted;
    forall i, j | 0 <= i < j < |all| ensures all[i].path != all[j].path {
      assert all[j] == noted[j - 1] && noted[j - 1] in noted;
      assert i == 0 || all[i] == noted[i - 1];
    }
  }

  lemma {:induction false} NotingMeaning(tallies: seq<Tally>, s: SentBody, path: string)
    ensures Lookup(Noting(tallies, s), path)
         == if path == s.path then With(Lookup(tallies, path), s) else Lookup(tallies, path)
    ensures forall t | t in Noting(tallies, s) :: t.path == s.path || t in tallies
    ensures OneTallyPerPath(tallies) ==> OneTallyPerPath(Noting(tallies, s))
  {
    if tallies != [] {
      var after := Noting(tallies, s);
      if tallies[0].path == s.path {
        assert after[1..] == tallies[1..];
      } else {
        NotingMeaning(tallies[1..], s, path);
        assert after[1..] == Noting(tallies[1..], s);
        if OneTallyPerPath(tallies) {
          TallyCons(tallies[0], after[1..], tallies[1..], s.path);
          assert after == [tallies[0]] + after[1..];
        }
      }
    }
  }

  lemma {:induction false} TalliesMeaning(sent: seq<SentBody>, path: string)
    ensures Lookup(Tallies(sent), path) == TallyOf(sent, path) && OneTallyPerPath(Tallies(sent))
  {
    if sent != [] {
      TalliesMeaning(sent[..|sent| - 1], path);
      NotingMeaning(Tallies(sent[..|sent| - 1]), sent[|sent| - 1], path);
    }
  }

  lemma {:induction false} DivergingMembers(tallies: seq<Tally>, t: Tally)
    ensures t in Diverging(tallies) <==> t in tallies && |t.bodies| > 1
  {
    if tallies != [] {
      DivergingMembers(tallies[1..], t);
    }
  }

  lemma {:induction false} LookupFinds(tallies: seq<Tally>, t: Tally)
    requires OneTallyPerPath(tallies)
    ensures t in tallies ==> Lookup(tallies, t.path) == t
    ensures Lookup(tallies, t.path) == t && t.bodies != [] ==> t in tallies
  {
    if tallies != [] && tallies[0].path != t.path {
      LookupFinds(tallies[1..], t);
    }
  }

  lemma {:induction false} TallyBodies(sent: seq<SentBody>, path: string, text: string)
    ensures text in TallyOf(sent, path).bodies <==> SentAs(sent, path, text)
    ensures forall i, j | 0 <= i < j < |TallyOf(sent, path).bodies| ::
              TallyOf(sent, path).bodies[i] != TallyOf(sent, path).bodies[j]
  {
    if sent != [] {
      var front, last := sent[..|sent| - 1], sent[|sent| - 1];
      TallyBodies(front, path, text);
      forall s: SentBody ensures s in sent <==> s in front || s == last {}
      if SentAs(front, path, text) {
        var s :| s in front && s.path == path && s.text == text;
        assert s in sent;
      }
    }
  }

  /** The report is exactly the paths that went out with two different bodies, each with
      its tally. */
  lemma DivergedMeaning(sent: seq<SentBody>, t: Tally)
    ensures t in DivergedPaths(sent)
      <==> t == TallyOf(sent, t.path)
           && exists a: string, b: string :: a != b && SentAs(sent, t.path, a) && SentAs(sent, t.path, b)
  {
    TalliesMeaning(sent, t.path);
    LookupFinds(Tallies(sent), t);
    DivergingMembers(Tallies(sent), t);
    var bodies := TallyOf(sent, t.path).bodies;
    TallyBodies(sent, t.path, "");
    if |bodies| > 1 {
      TallyBodies(sent, t.path, bodies[0]);
      TallyBodies(sent, t.path, bodies[1]);
      assert SentAs(sent, t.path, bodies[0]) && SentAs(sent, t.path, bodies[1]);
    }
    if a: string, b: string :| a != b && SentAs(sent, t.path, a) && SentAs(sent, t.path, b) {
      TallyBodies(sent, t.path, a);
      TallyBodies(sent, t.path, b);
    }
  }

  /** When a render under rule A diverges: exactly when the question carries a span the
      session already knows to be stale and no turn above the line carries it. */
  lemma DivergesExactlyWhen(w: Window, items: seq<Item>, pruned: nat, code: seq<Fragment>)
    requires w.Holds(items) && w.repeat.Once?
    requires w.current == CurrentOf(Carried(w.turns) + code, w.repeat)
    ensures DivergedPaths(AllSent(w, items, pruned, code)) == []
      <==> forall f | f in code && f !in w.AllBodies(items, pruned) :: !Stale(Carried(w.turns) + code, f)
  {
    var all := Carried(w.turns) + code;
    var sent := AllSent(w, items, pruned, code);
    if f :| f in code && f !in w.AllBodies(items, pruned) && Stale(all, f) {
      AllSentMeaning(w, items, pruned, code, f);
      NewestIsThere(all, f.path);
      NewestBodyAppend(Carried(w.turns), code, f.path);
      NewestIsThere(code, f.path);
      var g := Fragment(f.path, NewestBody(all, f.path).value);
      SupersededMeansStale(all, g);
      AllSentMeaning(w, items, pruned, code, g);
      DivergedMeaning(sent, TallyOf(sent, f.path));
      TalliesMeaning(sent, f.path);
    }
    if DivergedPaths(sent) != [] {
      var t := DivergedPaths(sent)[0];
      DivergedMeaning(sent, t);
      var a: string, b: string :| a != b && SentAs(sent, t.path, a) && SentAs(sent, t.path, b);
      if forall f | f in code && f !in w.AllBodies(items, pruned) :: !Stale(all, f) {
        SentIsNewest(w, items, pruned, code, Fragment(t.path, a));
        SentIsNewest(w, items, pruned, code, Fragment(t.path, b));
        assert false;
      }
    }
  }

  lemma SentIsNewest(w: Window, items: seq<Item>, pruned: nat, code: seq<Fragment>, f: Fragment)
    requires w.Holds(items) && w.repeat.Once?
    requires w.current == CurrentOf(Carried(w.turns) + code, w.repeat)
    requires forall g | g in code && g !in w.AllBodies(items, pruned) :: !Stale(Carried(w.turns) + code, g)
    requires SentAs(AllSent(w, items, pruned, code), f.path, f.text)
    ensures NewestBody(Carried(w.turns) + code, f.path) == Some(f.text)
  {
    var all := Carried(w.turns) + code;
    AllSentMeaning(w, items, pruned, code, f);
    SupersededMeansStale(all, f);
    if f in w.AllBodies(items, pruned) {
      AllBodiesCarried(w, items, pruned, f);
    }
    NewestIsThere(all, f.path);
  }

  /** So a question that reads each path one way never diverges. */
  lemma NothingDiverges(w: Window, items: seq<Item>, pruned: nat, code: seq<Fragment>)
    requires w.Holds(items) && w.repeat.Once? && OneBodyPerPath(code)
    requires w.current == CurrentOf(Carried(w.turns) + code, w.repeat)
    ensures DivergedPaths(AllSent(w, items, pruned, code)) == []
  {
    forall f | f in code && f !in w.AllBodies(items, pruned) ensures !Stale(Carried(w.turns) + code, f) {
      TheQuestionIsCurrent(w.turns, code, f);
    }
    DivergesExactlyWhen(w, items, pruned, code);
  }

  /** A question that reads one path two ways, in a session with nothing else in it. */
  function TwoBodies(): seq<Fragment> {
    [Fragment("a.rs", "fn a() {}"), Fragment("a.rs", "fn b() {}")]
  }

  function AskedTwice(c: TokenCounter): Window {
    Window([], [], c, Once, Kept, CurrentOf(TwoBodies(), Once))
  }

  lemma TheFirstIsStale()
    ensures Stale(TwoBodies(), TwoBodies()[0])
  {
    assert NewestBody(TwoBodies(), "a.rs") == Some("fn b() {}");
    assert "fn a() {}"[3] != "fn b() {}"[3];
  }

  /** An input on which a render under rule A contradicts itself, whatever the counter. */
  lemma TwoBodiesDiverge(c: TokenCounter)
    ensures DivergedPaths(AllSent(AskedTwice(c), [], 0, TwoBodies())) != []
  {
    hide AllSent, DivergedPaths, CurrentOf, Stale;
    var w, code := AskedTwice(c), TwoBodies();
    assert Carried(w.turns) + code == code;
    TheFirstIsStale();
    assert code[0] in code && code[0] !in w.AllBodies([], 0);
    DivergesExactlyWhen(w, [], 0, code);
  }
}
