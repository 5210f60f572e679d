/** What a job is closed on, summarised from and charged for: its own turns, every one of
    them in order, and nothing of any other job. */
module OwnTurns {
  import opened Conversation
  import opened Spans
  import opened Jobs
  import opened Window
  import opened SharedSpans
  import opened Decision

  /** The parts of a job this module does not read: how a fold is worded, and when a
      plan's closing condition is met. */
  datatype Scribe = Scribe(
    summary: (string, Option<Plan>, seq<ToolStep>, seq<Fragment>, nat) -> string,
    met: (Plan, seq<ToolStep>) -> bool)

  function TurnsOf(turns: seq<Turn>, job: JobId): seq<Turn> {
    if turns == [] then []
    else TurnsOf(turns[..|turns| - 1], job) + if turns[|turns| - 1].job == job then [turns[|turns| - 1]] else []
  }

  function StepsOf(turns: seq<Turn>): seq<ToolStep> {
    if turns == [] then [] else StepsOf(turns[..|turns| - 1]) + turns[|turns| - 1].steps
  }

  /** What a job's turns are worth in the prompt as it was last rendered, each on its own. */
  function FoldCost(w: Window, job: JobId, pruned: nat, n: nat): nat
    requires n <= |w.turns|
  {
    if n == 0 then 0
    else FoldCost(w, job, pruned, n - 1)
         + if w.turns[n - 1].job == job then w.ItemTokens(Live(n - 1), pruned) else 0
  }

  /** How a job's fold is worded. */
  function Wording(turns: seq<Turn>, job: Job, scribe: Scribe): string {
    var mine := TurnsOf(turns, job.id);
    scribe.summary(job.objective, job.plan, StepsOf(mine), Carried(mine), |mine|)
  }

  /** A plan that ends on something, met by the job's own steps. */
  predicate MetBy(turns: seq<Turn>, job: Job, scribe: Scribe) {
    job.plan.Some? && scribe.met(job.plan.value, StepsOf(TurnsOf(turns, job.id)))
  }

  /** What a fold would take out of the prompt as it was last rendered. */
  function Replacing(w: Window, job: JobId, pruned: nat): Replaced {
    Replaced(IdsOf(TurnsOf(w.turns, job)), FoldCost(w, job, pruned, |w.turns|), 0)
  }

  // ---------------------------------------------------------------------- which turns

  /** The places of a job's turns: each once, in order, all of them and no other. */
  ghost predicate OwnPlaces(turns: seq<Turn>, job: JobId, places: seq<nat>) {
    && Places(places, |turns|)
    && (forall p | p in places :: p < |turns| && turns[p].job == job)
    && (forall i | 0 <= i < |turns| && turns[i].job == job :: i in places)
  }

  predicate TurnsAt(turns: seq<Turn>, places: seq<nat>, taken: seq<Turn>) {
    && |taken| == |places|
    && (forall i | 0 <= i < |places| :: places[i] < |turns| && taken[i] == turns[places[i]])
  }

  lemma TurnsAtMore(turns: seq<Turn>, last: Turn, places: seq<nat>, taken: seq<Turn>)
    requires TurnsAt(turns, places, taken)
    ensures TurnsAt(turns + [last], places, taken) && TurnsAt(turns + [last], places + [|turns|], taken + [last])
  {
  }

  lemma OwnPlacesMore(turns: seq<Turn>, last: Turn, job: JobId, places: seq<nat>)
    requires OwnPlaces(turns, job, places)
    ensures OwnPlaces(turns + [last], job, if last.job == job then places + [|turns|] else places)
  {
    var more := if last.job == job then places + [|turns|] else places;
    forall p | p in more ensures p <= |turns| && (turns + [last])[p].job == job {
      assert p in places || (p == |turns| && last.job == job);
    }
    forall i | 0 <= i <= |turns| && (turns + [last])[i].job == job ensures i in more {
      if i < |turns| {
        assert i in places;
      } else {
        assert more[|more| - 1] == i;
      }
    }
  }

  lemma NothingTaken()
    ensures TurnsAt([], [], [])
  {
  }

  lemma NoOwnPlaces(job: JobId)
    ensures OwnPlaces([], job, [])
  {
  }

  /** The turns a job is closed on are exactly its own, in the order they were taken. */
  lemma {:induction false} OwnTurnsInOrder(turns: seq<Turn>, job: JobId) returns (places: seq<nat>)
    ensures OwnPlaces(turns, job, places) && TurnsAt(turns, places, TurnsOf(turns, job))
  {
    hide OwnPlaces, TurnsAt;
    if turns == [] {
      NoOwnPlaces(job);
      NothingTaken();
      return [];
    }
    var front, last := turns[..|turns| - 1], turns[|turns| - 1];
    var before := OwnTurnsInOrder(front, job);
    places := if last.job == job then before + [|front|] else before;
    assert turns == front + [last];
    OwnPlacesMore(front, last, job, before);
    TurnsAtMore(front, last, before, TurnsOf(front, job));
    assert TurnsOf(turns, job) == if last.job == job then TurnsOf(front, job) + [last] else TurnsOf(front, job);
  }

  /** There is one such list of places. */
  lemma {:induction false} PlacesAreUnique(a: seq<nat>, b: seq<nat>, n: nat)
    requires Places(a, n) && Places(b, n) && forall p :: p in a <==> p in b
    ensures a == b
    decreases n
  {
    if n > 0 {
      var shorter := Below(a, n);
      var other := Below(b, n);
      PlacesAreUnique(shorter, other, n - 1);
    } else {
      NoMorePlaces(a, 0);
      NoMorePlaces(b, 0);
    }
  }

  lemma {:induction false} NoMorePlaces(places: seq<nat>, n: nat)
    requires Places(places, n)
    ensures |places| <= n
  {
    if places != [] {
      NoMorePlaces(places[..|places| - 1], places[|places| - 1]);
    }
  }

  /** The places but the last possible one. */
  lemma Below(places: seq<nat>, n: nat) returns (below: seq<nat>)
    requires n > 0 && Places(places, n)
    ensures Places(below, n - 1) && forall p :: p in below <==> p in places && p != n - 1
    ensures places == if n - 1 in places then below + [n - 1] else below
  {
    if places != [] && places[|places| - 1] == n - 1 {
      below := places[..|places| - 1];
      assert places == below + [n - 1];
    } else {
      below := places;
      assert n - 1 !in places;
    }
  }

  lemma SamePlaces(turns: seq<Turn>, job: JobId, a: seq<nat>, b: seq<nat>)
    requires OwnPlaces(turns, job, a) && OwnPlaces(turns, job, b)
    ensures a == b
  {
    PlacesAreUnique(a, b, |turns|);
  }

  /** Two sessions that agree on a job's turns, wherever those stand and whatever stands
      between them, agree on when it closes, on what its fold says and whom it replaces. */
  lemma OnlyOwnTurnsCount(a: seq<Turn>, b: seq<Turn>, job: Job, scribe: Scribe, inA: seq<nat>, inB: seq<nat>)
    requires OwnPlaces(a, job.id, inA) && OwnPlaces(b, job.id, inB)
    requires |inA| == |inB| && forall i | 0 <= i < |inA| :: a[inA[i]] == b[inB[i]]
    ensures TurnsOf(a, job.id) == TurnsOf(b, job.id)
    ensures MetBy(a, job, scribe) == MetBy(b, job, scribe) && Wording(a, job, scribe) == Wording(b, job, scribe)
  {
    hide TurnsOf, StepsOf, Carried, OwnPlaces;
    var placesA := OwnTurnsInOrder(a, job.id);
    var placesB := OwnTurnsInOrder(b, job.id);
    SamePlaces(a, job.id, inA, placesA);
    SamePlaces(b, job.id, inB, placesB);
    assert TurnsAt(b, inB, TurnsOf(a, job.id)) && TurnsAt(b, inB, TurnsOf(b, job.id));
  }

  // ---------------------------------------------------------------------- which steps

  lemma {:induction false} StepsAppend(a: seq<Turn>, b: seq<Turn>)
    ensures StepsOf(a + b) == StepsOf(a) + StepsOf(b)
  {
    if b == [] {
      assert a + b == a;
    } else {
      assert (a + b)[..|a + b| - 1] == a + b[..|b| - 1];
      StepsAppend(a, b[..|b| - 1]);
    }
  }

  /** The steps a plan is held to: each turn's whole list, one turn after another. */
  lemma StepsInOrder(turns: seq<Turn>, i: nat)
    requires i < |turns|
    ensures StepsOf([]) == [] && StepsOf([turns[i]]) == turns[i].steps
    ensures StepsOf(turns) == StepsOf(turns[..i]) + turns[i].steps + StepsOf(turns[i + 1..])
  {
    assert turns == turns[..i] + [turns[i]] + turns[i + 1..];
    StepsAppend(turns[..i] + [turns[i]], turns[i + 1..]);
    StepsAppend(turns[..i], [turns[i]]);
    assert [turns[i]][..0] == [];
  }

  lemma {:induction false} CarriedAppend(a: seq<Turn>, b: seq<Turn>)
    ensures Carried(a + b) == Carried(a) + Carried(b)
  {
    if b == [] {
      assert a + b == a;
    } else {
      assert (a + b)[..|a + b| - 1] == a + b[..|b| - 1];
      CarriedAppend(a, b[..|b| - 1]);
    }
  }

  /** And the spans a fold quotes from, in the same order. */
  lemma CarriedInOrder(turns: seq<Turn>, i: nat)
    requires i < |turns|
    ensures Carried([]) == [] && Carried([turns[i]]) == turns[i].code
    ensures Carried(turns) == Carried(turns[..i]) + turns[i].code + Carried(turns[i + 1..])
  {
    assert turns == turns[..i] + [turns[i]] + turns[i + 1..];
    CarriedAppend(turns[..i] + [turns[i]], turns[i + 1..]);
    CarriedAppend(turns[..i], [turns[i]]);
    assert [turns[i]][..0] == [];
  }

  /** A step counts for a job exactly when a turn of that job ran it. */
  lemma OwnStepsOnly(turns: seq<Turn>, job: JobId, step: ToolStep)
    ensures step in StepsOf(TurnsOf(turns, job))
       <==> exists i | 0 <= i < |turns| :: turns[i].job == job && step in turns[i].steps
  {
    hide TurnsOf, StepsOf;
    var places := OwnTurnsInOrder(turns, job);
    var mine := TurnsOf(turns, job);
    StepIsSomebodys(mine, step);
    if i :| 0 <= i < |turns| && turns[i].job == job && step in turns[i].steps {
      assert i in places;
      var k :| 0 <= k < |places| && places[k] == i;
      assert mine[k] == turns[i];
    }
    if k :| 0 <= k < |mine| && step in mine[k].steps {
      assert places[k] in places && mine[k] == turns[places[k]];
    }
  }

  lemma {:induction false} StepIsSomebodys(turns: seq<Turn>, step: ToolStep)
    ensures step in StepsOf(turns) <==> exists i | 0 <= i < |turns| :: step in turns[i].steps
  {
    if turns != [] {
      StepIsSomebodys(turns[..|turns| - 1], step);
      var front, last := turns[..|turns| - 1], turns[|turns| - 1];
      if i :| 0 <= i < |turns| && step in turns[i].steps && i < |turns| - 1 {
        assert step in front[i].steps;
      }
      if i :| 0 <= i < |front| && step in front[i].steps {
        assert step in turns[i].steps;
      }
      assert step in StepsOf(turns) <==> step in StepsOf(front) || step in last.steps;
    }
  }

  /** A job none of whose turns ran anything has nothing to close on. */
  lemma NothingOfItsOwn(turns: seq<Turn>, job: Job, scribe: Scribe)
    requires forall i | 0 <= i < |turns| && turns[i].job == job.id :: turns[i].steps == []
    ensures MetBy(turns, job, scribe) <==> job.plan.Some? && scribe.met(job.plan.value, [])
  {
    var steps := StepsOf(TurnsOf(turns, job.id));
    if steps != [] {
      OwnStepsOnly(turns, job.id, steps[0]);
    }
  }

  // ----------------------------------------------------------------------- which cost

  function SumAt(w: Window, places: seq<nat>, pruned: nat): nat
    requires Places(places, |w.turns|)
  {
    if places == [] then 0
    else SumAt(w, places[..|places| - 1], pruned) + w.ItemTokens(Live(places[|places| - 1]), pruned)
  }

  /** What a fold is said to have replaced is the sum of what its own turns cost in the
      prompt, each on its own and none of any other job's. */
  lemma {:induction false} FoldCostIsTheSum(w: Window, job: JobId, pruned: nat, n: nat) returns (places: seq<nat>)
    requires n <= |w.turns|
    ensures OwnPlaces(w.turns[..n], job, places)
    ensures Places(places, |w.turns|) && FoldCost(w, job, pruned, n) == SumAt(w, places, pruned)
  {
    hide OwnPlaces, Window.ItemTokens;
    if n == 0 {
      NoOwnPlaces(job);
      return [];
    }
    var before := FoldCostIsTheSum(w, job, pruned, n - 1);
    OwnPlacesMore(w.turns[..n - 1], w.turns[n - 1], job, before);
    assert w.turns[..n] == w.turns[..n - 1] + [w.turns[n - 1]];
    OwnPlacesInRange(w.turns[..n - 1], job, before);
    if w.turns[n - 1].job == job {
      places := before + [n - 1];
      assert places[..|before|] == before;
    } else {
      places := before;
    }
  }

  lemma OwnPlacesInRange(turns: seq<Turn>, job: JobId, places: seq<nat>)
    requires OwnPlaces(turns, job, places)
    ensures Places(places, |turns|)
  {
  }

  /** What a fold replaces, said whole: the ids of the job's turns, in order, and the sum of
      what each costs where it stands. */
  lemma ReplacesItsOwn(w: Window, job: JobId, pruned: nat) returns (places: seq<nat>)
    ensures OwnPlaces(w.turns, job, places) && IdsAt(w.turns, places, Replacing(w, job, pruned).turns)
    ensures Replacing(w, job, pruned).tokens == SumAt(w, places, pruned)
    ensures Replacing(w, job, pruned).summaryTokens == 0
  {
    hide TurnsOf, FoldCost, IdsOf, SumAt;
    places := OwnTurnsInOrder(w.turns, job);
    IdsInOrder(TurnsOf(w.turns, job));
    var summed := FoldCostIsTheSum(w, job, pruned, |w.turns|);
    assert w.turns[..|w.turns|] == w.turns;
    SamePlaces(w.turns, job, places, summed);
  }

  lemma {:induction false} SameCorrection(v: Window, w: Window, code: seq<Fragment>, total: nat)
    requires v.counter == w.counter && v.current == w.current
    ensures v.Corrected(code, total) == w.Corrected(code, total)
  {
    if code != [] {
      SameCorrection(v, w, code[1..], if v.current.Superseded(code[0])
        then SatSub(total, SpanTokens(code[0], Bytes, v.counter)) + SpanTokens(code[0], Shown(v.current), v.counter)
        else total);
    }
  }

  lemma {:induction false} SameSum(v: Window, w: Window, inV: seq<nat>, inW: seq<nat>, prunedV: nat, prunedW: nat)
    requires Places(inV, |v.turns|) && Places(inW, |w.turns|) && |inV| == |inW|
    requires v.counter == w.counter && v.current == w.current && v.results == w.results
    requires forall i | 0 <= i < |inV| ::
               v.turns[inV[i]] == w.turns[inW[i]] && (inV[i] < prunedV <==> inW[i] < prunedW)
    ensures SumAt(v, inV, prunedV) == SumAt(w, inW, prunedW)
  {
    if inV != [] {
      var k := |inV| - 1;
      SameSum(v, w, inV[..k], inW[..k], prunedV, prunedW);
      SameCorrection(v, w, v.turns[inV[k]].code, TokensOf(v.turns[inV[k]], v.counter));
    }
  }

  /** The turns of other jobs are in no fold's price: two windows that agree on a job's
      turns, and on which of them are behind the line, agree on what its fold replaces. */
  lemma OnlyOwnTurnsAreReplaced(v: Window, w: Window, job: JobId, inV: seq<nat>, inW: seq<nat>, prunedV: nat, prunedW: nat)
    requires OwnPlaces(v.turns, job, inV) && OwnPlaces(w.turns, job, inW) && |inV| == |inW|
    requires v.counter == w.counter && v.current == w.current && v.results == w.results
    requires forall i | 0 <= i < |inV| ::
               v.turns[inV[i]] == w.turns[inW[i]] && (inV[i] < prunedV <==> inW[i] < prunedW)
    ensures Replacing(v, job, prunedV) == Replacing(w, job, prunedW)
  {
    hide Replacing, TurnsOf, FoldCost, IdsOf, SumAt, OwnPlaces;
    var placesV := ReplacesItsOwn(v, job, prunedV);
    var placesW := ReplacesItsOwn(w, job, prunedW);
    SamePlaces(v.turns, job, inV, placesV);
    SamePlaces(w.turns, job, inW, placesW);
    OwnPlacesInRange(v.turns, job, inV);
    OwnPlacesInRange(w.turns, job, inW);
    SameSum(v, w, inV, inW, prunedV, prunedW);
    assert Replacing(v, job, prunedV).turns == Replacing(w, job, prunedW).turns;
  }
}
