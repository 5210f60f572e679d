/** Calls in a row drawn as one box. */
module Runs {
  import opened Searching
  import opened Segments

  datatype Drawn = One(part: Part) | Many(calls: seq<Part>)

  predicate Blank(part: Part) {
    part.Text? && forall i | 0 <= i < |part.text| :: Space(part.text[i])
  }

  function Parts(d: Drawn): seq<Part> {
    match d
    case One(part) => [part]
    case Many(calls) => calls
  }

  function Flattened(out: seq<Drawn>): seq<Part> {
    if out == [] then [] else Flattened(out[..|out| - 1]) + Parts(out[|out| - 1])
  }

  predicate IsCall(d: Drawn) {
    d.Many? || d.part.Tool?
  }

  /** Neither a call nor white space. */
  predicate Solid(d: Drawn) {
    d.One? && !d.part.Tool? && !Blank(d.part)
  }

  predicate AllTools(parts: seq<Part>) {
    forall i | 0 <= i < |parts| :: parts[i].Tool?
  }

  predicate AllBlank(parts: seq<Part>) {
    forall i | 0 <= i < |parts| :: Blank(parts[i])
  }

  // ------------------------------------------------------------------------- what may be left out

  /** A call was last, with nothing but white space since. */
  predicate AfterCall(before: seq<Part>) {
    before != [] &&
    var last := before[|before| - 1];
    last.Tool? || (Blank(last) && AfterCall(before[..|before| - 1]))
  }

  /** A call is next, with nothing but white space until it. */
  predicate BeforeCall(after: seq<Part>) {
    after != [] && (after[0].Tool? || (Blank(after[0]) && BeforeCall(after[1..])))
  }

  /** White space between two calls and nothing else between them. */
  predicate InGap(before: seq<Part>, part: Part, after: seq<Part>) {
    Blank(part) && AfterCall(before) && BeforeCall(after)
  }

  /** Everything but the gaps, in order: white space after the last call of a row stays. */
  function WithoutGaps(before: seq<Part>, rest: seq<Part>): seq<Part>
    decreases |rest|
  {
    if rest == [] then []
    else
      (if InGap(before, rest[0], rest[1..]) then [] else [rest[0]])
      + WithoutGaps(before + [rest[0]], rest[1..])
  }

  // ------------------------------------------------------------------------------ what is one box

  predicate BoxesHoldCalls(out: seq<Drawn>) {
    forall i | 0 <= i < |out| && out[i].Many? :: |out[i].calls| > 1 && AllTools(out[i].calls)
  }

  predicate SolidBetween(out: seq<Drawn>, i: int, j: int) {
    exists k | i < k < j :: 0 <= k < |out| && Solid(out[k])
  }

  /** Two boxes, or two calls alone, stand apart only where something else stands between. */
  predicate Apart(out: seq<Drawn>) {
    forall i, j | 0 <= i < j < |out| && IsCall(out[i]) && IsCall(out[j]) :: SolidBetween(out, i, j)
  }

  /** Whatever call comes next stands apart from all of these. */
  predicate Closed(out: seq<Drawn>) {
    forall i | 0 <= i < |out| && IsCall(out[i]) :: SolidBetween(out, i, |out|)
  }

  function AsDrawn(parts: seq<Part>): (out: seq<Drawn>)
    ensures |out| == |parts| && forall i | 0 <= i < |parts| :: out[i] == One(parts[i])
  {
    seq(|parts|, i requires 0 <= i < |parts| => One(parts[i]))
  }

  /** The calls waiting, as they are drawn. */
  function Box(run: seq<Part>): seq<Drawn> {
    if |run| > 1 then [Many(run)] else AsDrawn(run)
  }

  lemma FlattenedOne(out: seq<Drawn>, d: Drawn)
    ensures Flattened(out + [d]) == Flattened(out) + Parts(d)
  {
    assert (out + [d])[..|out|] == out;
  }

  lemma {:induction false} FlattenedParts(out: seq<Drawn>, parts: seq<Part>)
    ensures Flattened(out + AsDrawn(parts)) == Flattened(out) + parts
  {
    hide Flattened;
    if parts == [] {
      assert out + AsDrawn(parts) == out;
    } else {
      var front, last := parts[..|parts| - 1], parts[|parts| - 1];
      FlattenedParts(out, front);
      FlattenedOne(out + AsDrawn(front), One(last));
      assert AsDrawn(parts) == AsDrawn(front) + [One(last)];
      assert out + AsDrawn(parts) == (out + AsDrawn(front)) + [One(last)];
      assert (Flattened(out) + front) + [last] == Flattened(out) + parts;
    }
  }

  lemma FlattenedFlush(out: seq<Drawn>, run: seq<Part>, gap: seq<Part>)
    ensures Flattened(out + Box(run) + AsDrawn(gap)) == Flattened(out) + run + gap
  {
    hide Flattened;
    if |run| > 1 {
      FlattenedOne(out, Many(run));
    } else {
      FlattenedParts(out, run);
    }
    FlattenedParts(out + Box(run), gap);
  }

  lemma SolidStays(out: seq<Drawn>, more: seq<Drawn>, i: int, j: int)
    requires 0 <= i && j <= |out| && SolidBetween(out, i, j)
    ensures SolidBetween(out + more, i, j)
  {
    var k :| i < k < j && 0 <= k < |out| && Solid(out[k]);
    assert Solid((out + more)[k]);
  }

  /** A run joins what is closed as one thing drawn. */
  lemma RunStandsApart(out: seq<Drawn>, run: seq<Part>)
    requires Apart(out) && Closed(out) && BoxesHoldCalls(out) && AllTools(run)
    ensures Apart(out + Box(run)) && BoxesHoldCalls(out + Box(run))
  {
    hide SolidBetween, Solid;
    var all := out + Box(run);
    forall i, j | 0 <= i < j < |all| && IsCall(all[i]) && IsCall(all[j]) ensures SolidBetween(all, i, j) {
      SolidStays(out, Box(run), i, if j < |out| then j else |out|);
    }
  }

  lemma GapChangesNothing(out: seq<Drawn>, gap: seq<Part>)
    requires Apart(out) && BoxesHoldCalls(out) && AllBlank(gap)
    ensures Apart(out + AsDrawn(gap)) && BoxesHoldCalls(out + AsDrawn(gap))
    ensures Closed(out) ==> Closed(out + AsDrawn(gap))
  {
    hide SolidBetween, Solid;
    var all := out + AsDrawn(gap);
    forall i | |out| <= i < |all| ensures !IsCall(all[i]) {
      assert Blank(gap[i - |out|]);
    }
    forall i, j | 0 <= i < j < |all| && IsCall(all[i]) && IsCall(all[j]) ensures SolidBetween(all, i, j) {
      SolidStays(out, AsDrawn(gap), i, j);
    }
    if Closed(out) {
      forall i | 0 <= i < |all| && IsCall(all[i]) ensures SolidBetween(all, i, |all|) {
        SolidStays(out, AsDrawn(gap), i, |out|);
        SolidWidens(all, i, |out|);
      }
    }
  }

  lemma SolidWidens(out: seq<Drawn>, i: int, j: int)
    requires j <= |out| && SolidBetween(out, i, j)
    ensures SolidBetween(out, i, |out|)
  {
    var k :| i < k < j && 0 <= k < |out| && Solid(out[k]);
  }

  /** Anything solid closes what came before it; anything not a call leaves it as it was. */
  lemma OtherCloses(out: seq<Drawn>, part: Part)
    requires Apart(out) && BoxesHoldCalls(out) && !part.Tool? && (Closed(out) || !Blank(part))
    ensures Apart(out + [One(part)]) && Closed(out + [One(part)]) && BoxesHoldCalls(out + [One(part)])
  {
    hide SolidBetween, Solid;
    var all := out + [One(part)];
    forall i, j | 0 <= i < j < |all| && IsCall(all[i]) && IsCall(all[j]) ensures SolidBetween(all, i, j) {
      SolidStays(out, [One(part)], i, j);
    }
    forall i | 0 <= i < |all| && IsCall(all[i]) ensures SolidBetween(all, i, |all|) {
      if Closed(out) {
        SolidStays(out, [One(part)], i, |out|);
        SolidWidens(all, i, |out|);
      } else {
        SolidLast(out, part, i);
      }
    }
  }

  lemma SolidLast(out: seq<Drawn>, part: Part, i: int)
    requires !part.Tool? && !Blank(part) && 0 <= i < |out|
    ensures SolidBetween(out + [One(part)], i, |out| + 1)
  {
    assert Solid((out + [One(part)])[|out|]);
  }

  lemma AfterOneMore(before: seq<Part>, part: Part)
    ensures AfterCall(before + [part]) <==> part.Tool? || (Blank(part) && AfterCall(before))
  {
    assert (before + [part])[..|before|] == before;
  }

  /** What is settled, what waits for its box, and what only the rest can settle. */
  function Waiting(parts: seq<Part>, n: nat, gap: seq<Part>): seq<Part>
    requires n <= |parts|
  {
    (if BeforeCall(parts[n..]) then [] else gap) + WithoutGaps(parts[..n], parts[n..])
  }

  lemma OneMoreWaits(parts: seq<Part>, n: nat, gap: seq<Part>)
    requires n < |parts|
    ensures parts[n].Tool? ==> Waiting(parts, n, gap) == [parts[n]] + Waiting(parts, n + 1, [])
    ensures !parts[n].Tool? && Blank(parts[n]) && AfterCall(parts[..n]) ==>
              Waiting(parts, n, gap) == Waiting(parts, n + 1, gap + [parts[n]])
    ensures !parts[n].Tool? && (!Blank(parts[n]) || (!AfterCall(parts[..n]) && gap == [])) ==>
              Waiting(parts, n, gap) == gap + [parts[n]] + Waiting(parts, n + 1, [])
  {
    hide Blank, AfterCall;
    assert parts[n..] == [parts[n]] + parts[n + 1..] && parts[n..][1..] == parts[n + 1..];
    assert parts[..n] + [parts[n]] == parts[..n + 1];
    ToolIsNotBlank(parts[n]);
  }

  lemma ToolIsNotBlank(part: Part)
    ensures part.Tool? ==> !Blank(part)
  {
  }

  /** Calls with nothing but white space between them become one box, and only those: what
      is drawn is every part but the gaps inside boxes, and between any two boxes or calls
      alone there is something that is neither. */
  method Grouped(parts: seq<Part>) returns (out: seq<Drawn>)
    ensures Flattened(out) == WithoutGaps([], parts)
    ensures BoxesHoldCalls(out) && Apart(out)
  {
    hide BoxesHoldCalls, Apart, Closed, Flattened, Blank, WithoutGaps, BeforeCall, AfterCall, Waiting;
    out := [];
    var run, gap := [], [];
    Start(parts);
    for n := 0 to |parts|
      invariant BoxesHoldCalls(out) && Apart(out) && Closed(out) && AllTools(run) && AllBlank(gap)
      invariant (run != [] <==> AfterCall(parts[..n])) && (run == [] ==> gap == [])
      invariant Flattened(out) + run + Waiting(parts, n, gap) == WithoutGaps([], parts)
    {
      var part := parts[n];
      assert parts[..n + 1] == parts[..n] + [part];
      AfterOneMore(parts[..n], part);
      OneMoreWaits(parts, n, gap);
      ToolIsNotBlank(part);
      if part.Tool? {
        assert Flattened(out) + run + ([part] + Waiting(parts, n + 1, []))
            == Flattened(out) + (run + [part]) + Waiting(parts, n + 1, []);
        gap := [];
        run := run + [part];
      } else if run != [] && Blank(part) {
        gap := gap + [part];
      } else {
        FlattenedFlush(out, run, gap);
        RunStandsApart(out, run);
        GapChangesNothing(out + Box(run), gap);
        if run == [] {
          assert out + Box(run) + AsDrawn(gap) == out;
        }
        ghost var settled := Flattened(out) + run + gap;
        assert Flattened(out) + run + (gap + [part] + Waiting(parts, n + 1, []))
            == settled + [part] + [] + Waiting(parts, n + 1, []);
        out := Flush(out, run, gap);
        FlattenedOne(out, One(part));
        OtherCloses(out, part);
        out := out + [One(part)];
        run, gap := [], [];
      }
    }
    End(parts, gap);
    FlattenedFlush(out, run, gap);
    RunStandsApart(out, run);
    GapChangesNothing(out + Box(run), gap);
    out := Flush(out, run, gap);
  }

  method Flush(before: seq<Drawn>, run: seq<Part>, gap: seq<Part>) returns (out: seq<Drawn>)
    ensures out == before + Box(run) + AsDrawn(gap)
  {
    if |run| > 1 {
      out := before + [Many(run)];
    } else {
      out := before + AsDrawn(run);
    }
    out := out + AsDrawn(gap);
  }

  lemma Start(parts: seq<Part>)
    ensures BoxesHoldCalls([]) && Apart([]) && Closed([]) && Flattened([]) == [] && !AfterCall(parts[..0])
    ensures Flattened([]) + [] + Waiting(parts, 0, []) == WithoutGaps([], parts)
  {
    assert parts[..0] == [] && parts[0..] == parts;
  }

  lemma End(parts: seq<Part>, gap: seq<Part>)
    ensures Waiting(parts, |parts|, gap) == gap
  {
    assert parts[|parts|..] == [];
  }
}
