/** What the page makes of what the grammar compels: where a call ends, and when it is drawn
    whole. */
module ReadBack {
  import opened Conversation
  import opened Gbnf
  import opened Avoidance
  import opened ObjectText
  import opened Json
  import opened Grammar
  import opened Reply
  import opened Searching
  import opened Braces
  import opened Thinking
  import S = Segments
  import O = Openings

  predicate PlainTools(tools: seq<Tool>) {
    forall i | 0 <= i < |tools| :: PlainKey(tools[i].name) && PlainSchema(tools[i].schema)
  }

  lemma ArgumentsAreNeutral(g: Rules, tools: seq<Tool>, i: nat, s: string)
    requires Compiled(g, tools) && i < |tools| && PlainSchema(tools[i].schema)
    requires Generates(g, Ref(Arguments(tools[i].name)), s)
    ensures Neutral(s)
  {
    hide Neutral, Compiled, Generates, JsonObject;
    ArgumentsAreJson(g, tools, i, s);
    forall v | ArgumentValue(v) ensures Neutral(v) { ArgumentIsNeutral(v); }
    ObjectEndsAtItsBrace((v: string) => ArgumentValue(v), "", s, "");
  }

  lemma CallBodyIsNeutral(g: Rules, tools: seq<Tool>, i: nat, s: string)
    requires Compiled(g, tools) && i < |tools| && PlainTools(tools) && IsCallOf(g, tools[i], s)
    ensures Neutral(s)
  {
    hide Neutral, Compiled, Generates, Spaces, PlainSchema, PlainKey, ObjectParts, PropsOf, InScope;
    var w1, w2, w3, arguments :| CallParts(g, tools[i], s, w1, w2, w3, arguments);
    ArgumentsOf(g, tools, i, arguments);
    ArgumentsAreNeutral(g, tools, i, arguments);
    PlainIsString(tools[i].name);
    StringIsNeutral(Quoted(tools[i].name));
    NamesAreStrings();
    SpacesAreDull(w1);
    SpacesAreDull(w2);
    SpacesAreDull(w3);
    DullIsNeutral(":");
    DullIsNeutral(",");
    NeutralConcat("\"name\"", ":");
    NeutralConcat("\"name\"" + ":", w1);
    NeutralConcat("\"name\"" + ":" + w1, Quoted(tools[i].name));
    NeutralConcat("\"name\"" + ":" + w1 + Quoted(tools[i].name), ",");
    NeutralConcat("\"name\"" + ":" + w1 + Quoted(tools[i].name) + ",", w2);
    NeutralConcat("\"name\"" + ":" + w1 + Quoted(tools[i].name) + "," + w2, "\"arguments\"");
    NeutralConcat("\"name\"" + ":" + w1 + Quoted(tools[i].name) + "," + w2 + "\"arguments\"", ":");
    NeutralConcat("\"name\"" + ":" + w1 + Quoted(tools[i].name) + "," + w2 + "\"arguments\"" + ":", w3);
    NeutralConcat("\"name\"" + ":" + w1 + Quoted(tools[i].name) + "," + w2 + "\"arguments\"" + ":" + w3, arguments);
  }

  lemma ArgumentsOf(g: Rules, tools: seq<Tool>, i: nat, s: string)
    requires Compiled(g, tools) && i < |tools|
    requires exists a, list, b :: ObjectParts(g, PropsOf(tools[i].schema), s, a, list, b)
    ensures Generates(g, Ref(Arguments(tools[i].name)), s)
  {
    hide Generates, ObjectParts, HasObject, PropsOf, Avoids, SharedSound;
    assert ToolCompiled(g, tools[i]);
    ObjectRuleGenerates(g, tools[i].name, PropsOf(tools[i].schema), s);
  }

  lemma NamesAreStrings()
    ensures Neutral("\"name\"") && Neutral("\"arguments\"")
  {
    hide Neutral, JsonString, Characters;
    PlainIsString("name");
    PlainIsString("arguments");
    assert Quoted("name") == "\"name\"" && Quoted("arguments") == "\"arguments\"";
    StringIsNeutral("\"name\"");
    StringIsNeutral("\"arguments\"");
  }

  lemma SpacesAreDull(w: string)
    requires Spaces(w)
    ensures Neutral(w)
  {
    DullIsNeutral(w);
  }

  /** A call the grammar allows, written anywhere without its fence, ends for the page where
      it ends, whatever braces and quotes its arguments hold. */
  lemma CompelledCallsEnd(g: Rules, tools: seq<Tool>, before: string, call: string, rest: string)
    requires Compiled(g, tools) && PlainTools(tools) && IsCall(g, tools, call)
    ensures EndsAt(before + call + rest, |before|, Some(|before| + |call|))
  {
    hide Neutral, Compiled, EndsAt, PlainTools, IsCallOf, Spaces;
    var a, body, b, i :| IsCallWith(g, tools, call, a, body, b, i);
    CallBodyIsNeutral(g, tools, i, body);
    SpacesAreDull(a);
    SpacesAreDull(b);
    NeutralConcat(a, body);
    NeutralConcat(a + body, b);
    BracedEnds(before, a + body + b, rest);
    assert call == "{" + (a + body + b) + "}";
  }

  lemma SliceOf(s: string, t: string, at: nat, a: int, p: string)
    requires at <= |s| && s[at..] == t
    ensures At(p, t, a) ==> At(p, s, at + a)
    ensures 0 <= a && At(p, s, at + a) ==> At(p, t, a)
  {
    if 0 <= a && a + |p| <= |t| {
      var x, y := s[at + a..at + a + |p|], t[a..a + |p|];
      forall i | 0 <= i < |p| ensures x[i] == y[i] {
        assert y[i] == s[at..][a + i];
      }
      assert x == y;
    }
  }

  /** In a call and what closes it, a fence is in the call or is the closing one. */
  lemma FenceInTail(call: string, a: int)
    requires At("```", call + "\n```", a)
    ensures a == |call| + 1 || At("```", call, a)
  {
    var tail := call + "\n```";
    assert tail[a..a + 3] == "```";
    assert tail[a] == tail[a..a + 3][0] && tail[a + 1] == tail[a..a + 3][1] && tail[a + 2] == tail[a..a + 3][2];
    assert tail[|call|] == '\n';
    if a + 3 <= |call| {
      assert call[a..a + 3] == tail[a..a + 3];
    }
  }

  /** After the trigger and its newline, the first closing fence is the compelled one exactly
      where the call itself holds none. */
  lemma FirstFenceCloses(s: string, k: nat, call: string)
    requires k <= |s| && s[k..] == "\n" + call + "\n```"
    ensures |s| == k + |call| + 5 && IndexOf(s, "```", k + 1).Some?
    ensures IndexOf(s, "```", k + 1) == Some(|s| - 3) <==> !Occurs("```", call)
  {
    hide At;
    var tail := call + "\n```";
    assert |s| == k + |s[k..]|;
    assert s[k + 1..] == s[k..][1..] == tail;
    FenceEnds(call);
    SliceOf(s, tail, k + 1, |call| + 1, "```");
    var first := IndexOf(s, "```", k + 1).value;
    SliceOf(s, tail, k + 1, first - k - 1, "```");
    FenceInTail(call, first - k - 1);
    if a :| At("```", call, a) {
      Within(call, a);
      SliceOf(s, tail, k + 1, a, "```");
    }
  }

  lemma FenceEnds(call: string)
    ensures At("```", call + "\n```", |call| + 1)
  {
  }

  lemma Within(call: string, a: int)
    requires At("```", call, a)
    ensures 0 <= a <= |call| - 3 && At("```", call + "\n```", a)
  {
    assert (call + "\n```")[a..a + 3] == call[a..a + 3];
  }

  // --------------------------------------------------------------------- one stretch of answer

  /** A stretch that ends in a compelled call is read as what comes before and that call. */
  function ProseAndCall(reader: S.Reader, u: string, at: nat, call: string): seq<S.Piece>
    requires at <= |u|
  {
    [S.Prose(u[..at]), S.CallText(S.Read(reader, call + "\n"), u[at..])]
  }

  /** The block the trigger opens: the rest of the stretch, where the call holds no fence, and
      less than that where it does. */
  lemma BlockOfCall(reader: S.Reader, u: string, at: nat, call: string)
    requires at + |TRIGGER| <= |u| && u[at + |TRIGGER|..] == "\n" + call + "\n```"
    requires S.Opens(u, S.Fenced(at, S.TOOL_FENCE))
    ensures var o := S.Fenced(at, S.TOOL_FENCE);
            if Occurs("```", call) then S.BlockEnd(u, o) < |u| && S.BlockOf(reader, u, o).CallText?
            else S.BlockEnd(u, o) == |u| && S.BlockOf(reader, u, o) == S.CallText(S.Read(reader, call + "\n"), u[at..])
  {
    hide Occurs, At, IndexOf, S.ShowsJson;
    var k, o := at + |TRIGGER|, S.Fenced(at, S.TOOL_FENCE);
    FirstFenceCloses(u, k, call);
    assert u[k] == u[k..][0] == '\n';
    assert S.BodyAfter(u, at + |S.TOOL_FENCE|) == k + 1;
    var close := IndexOf(u, "```", k + 1);
    assert S.BlockEnd(u, o) == close.value + 3;
    if close.value == |u| - 3 {
      assert u[k + 1..|u| - 3] == call + "\n" by {
        assert u[k + 1..] == u[k..][1..] == call + "\n```";
      }
      assert u[at..|u|] == u[at..];
    } else {
      LaterFence(u, close.value);
    }
  }

  lemma LaterFence(u: string, k: nat)
    requires At("```", u, k) && k != |u| - 3
    ensures k + 3 < |u|
  {
  }

  // ------------------------------------------------------------------------------ the whole reply

  function ThoughtsIn(parts: seq<S.Part>): nat {
    if parts == [] then 0 else ThoughtsIn(parts[..|parts| - 1]) + if parts[|parts| - 1].Think? then 1 else 0
  }

  function Thoughts(regions: seq<Region>): nat {
    if regions == [] then 0 else Thoughts(regions[..|regions| - 1]) + if regions[|regions| - 1].think then 1 else 0
  }

  lemma OneMoreThought(parts: seq<S.Part>, part: S.Part)
    ensures ThoughtsIn(parts + [part]) == ThoughtsIn(parts) + if part.Think? then 1 else 0
  {
    assert (parts + [part])[..|parts|] == parts;
  }

  lemma PieceHasNoThought(ran: seq<S.Call>, d: S.Drawing, piece: S.Piece)
    ensures ThoughtsIn(S.WithPiece(ran, d, piece).parts) == ThoughtsIn(d.parts)
  {
    var parts := d.parts;
    match piece
    case Prose(t) =>
      if t != "" && parts != [] && parts[|parts| - 1].Text? {
        OneMoreThought(parts[..|parts| - 1], S.Text(parts[|parts| - 1].text + t));
      } else if t != "" {
        OneMoreThought(parts, S.Text(t));
      }
    case CallText(parsed, raw) =>
      OneMoreThought(parts, S.ToolPart(ran, d.used, parsed, raw));
  }

  lemma {:induction false} PiecesHaveNoThought(ran: seq<S.Call>, d: S.Drawing, pieces: seq<S.Piece>)
    ensures ThoughtsIn(S.WithPieces(ran, d, pieces).parts) == ThoughtsIn(d.parts)
    decreases |pieces|
  {
    hide S.WithPiece;
    if pieces != [] {
      PieceHasNoThought(ran, d, pieces[0]);
      PiecesHaveNoThought(ran, S.WithPiece(ran, d, pieces[0]), pieces[1..]);
    }
  }

  lemma {:induction false} RestHasNoThought(ran: seq<S.Call>, d: S.Drawing)
    ensures ThoughtsIn(S.WithRest(ran, d)) == ThoughtsIn(d.parts)
    decreases |ran| - d.used
  {
    hide ThoughtsIn;
    if d.used < |ran| {
      OneMoreThought(d.parts, S.Unshown(ran[d.used]));
      RestHasNoThought(ran, S.Drawing(d.parts + [S.Unshown(ran[d.used])], d.used + 1));
    }
  }

  /** Every thought of the reply is drawn as one, and nothing else is. */
  lemma {:induction false} ThoughtsAreDrawn(reader: S.Reader, ran: seq<S.Call>, d: S.Drawing, regions: seq<Region>)
    ensures ThoughtsIn(S.WithRegions(reader, ran, d, regions).parts) == ThoughtsIn(d.parts) + Thoughts(regions)
  {
    hide S.WithPieces, S.Pieces;
    if regions != [] {
      var front, r := regions[..|regions| - 1], regions[|regions| - 1];
      var before := S.WithRegions(reader, ran, d, front);
      ThoughtsAreDrawn(reader, ran, d, front);
      if r.think {
        OneMoreThought(before.parts, S.Think(r.text, r.open));
      } else {
        PiecesHaveNoThought(ran, before, S.Pieces(reader, r.text, 0));
      }
    }
  }

  lemma {:induction false} RegionsInTwo(reader: S.Reader, ran: seq<S.Call>, d: S.Drawing, a: seq<Region>, b: seq<Region>)
    ensures S.WithRegions(reader, ran, d, a + b) == S.WithRegions(reader, ran, S.WithRegions(reader, ran, d, a), b)
    ensures Thoughts(a + b) == Thoughts(a) + Thoughts(b)
  {
    hide S.WithPieces, S.Pieces;
    if b == [] {
      assert a + b == a;
    } else {
      var front := b[..|b| - 1];
      RegionsInTwo(reader, ran, d, a, front);
      assert (a + b)[..|a + b| - 1] == a + front;
    }
  }

  lemma OneAnswer(reader: S.Reader, ran: seq<S.Call>, d: S.Drawing, text: string)
    ensures var one := [Region(false, text, false)];
            S.WithRegions(reader, ran, d, one) == S.WithPieces(ran, d, S.Pieces(reader, text, 0)) && Thoughts(one) == 0
  {
    var one := [Region(false, text, false)];
    assert one[..0] == [] && S.WithRegions(reader, ran, d, []) == d;
  }

  /** From `j` on, a reply is one answer exactly where no thought opens there. */
  lemma NoThoughtOpens(s: string, j: nat)
    requires j <= |s|
    ensures Thoughts(CutFrom(s, j)) == 0 <==> !Occurs(OPEN, s[j..])
    ensures !Occurs(OPEN, s[j..]) ==> CutFrom(s, j) == [Region(false, s[j..], false)]
  {
    hide At;
    var first := IndexOf(s, OPEN, j);
    if first.Some? {
      SliceOf(s, s[j..], j, first.value - j, OPEN);
      assert At(OPEN, s[j..], first.value - j);
      ThoughtAfterAnswer(s, j);
    } else {
      if a :| At(OPEN, s[j..], a) {
        SliceOf(s, s[j..], j, a, OPEN);
        Starts(s[j..], a);
      }
      assert CutFrom(s, j)[..0] == [];
    }
  }

  lemma Starts(u: string, a: int)
    requires At(OPEN, u, a)
    ensures 0 <= a
  {
  }

  lemma ThoughtAfterAnswer(s: string, j: nat)
    requires j <= |s| && IndexOf(s, OPEN, j).Some?
    ensures Thoughts(CutFrom(s, j)) > 0
  {
    var cut := CutFrom(s, j);
    assert |cut| >= 2 && cut[1].think;
    MoreThoughts(cut, 2);
    assert cut[..2][..1] == cut[..1];
  }

  lemma {:induction false} MoreThoughts(regions: seq<Region>, n: nat)
    requires n <= |regions|
    ensures Thoughts(regions[..n]) <= Thoughts(regions)
    decreases |regions|
  {
    if n < |regions| {
      var front := regions[..|regions| - 1];
      MoreThoughts(front, n);
      assert front[..n] == regions[..n];
    } else {
      assert regions[..n] == regions;
    }
  }

  // --------------------------------------------------------------------- what was drawn stays drawn

  /** The first parts of a drawing stay as they are once a part that is not text ends them. */
  predicate Settled(parts: seq<S.Part>, n: nat) {
    0 < n <= |parts| && !parts[n - 1].Text?
  }

  lemma {:induction false} SettledStays(ran: seq<S.Call>, d: S.Drawing, pieces: seq<S.Piece>, n: nat)
    requires Settled(d.parts, n)
    ensures Settled(S.WithPieces(ran, d, pieces).parts, n) && S.WithPieces(ran, d, pieces).parts[n - 1] == d.parts[n - 1]
    decreases |pieces|
  {
    if pieces != [] {
      SettledStays(ran, S.WithPiece(ran, d, pieces[0]), pieces[1..], n);
    }
  }

  lemma {:induction false} SettledAtTheEnd(ran: seq<S.Call>, d: S.Drawing, n: nat)
    requires Settled(d.parts, n)
    ensures Settled(S.WithRest(ran, d), n) && S.WithRest(ran, d)[n - 1] == d.parts[n - 1]
    decreases |ran| - d.used
  {
    if d.used < |ran| {
      SettledAtTheEnd(ran, S.Drawing(d.parts + [S.Unshown(ran[d.used])], d.used + 1), n);
    }
  }

  /** Where the first call of a stretch ends up, whatever follows it. */
  lemma FirstCallDrawn(ran: seq<S.Call>, d: S.Drawing, prose: string, call: S.Piece, rest: seq<S.Piece>)
    requires call.CallText?
    ensures var n := |S.WithText(d.parts, prose)| + 1;
            var all := S.WithRest(ran, S.WithPieces(ran, d, [S.Prose(prose), call] + rest));
            Settled(all, n) && all[n - 1].Tool? && all[n - 1].raw == call.raw
  {
    hide S.WithText;
    var one := S.WithPiece(ran, S.WithPiece(ran, d, S.Prose(prose)), call);
    var n := |S.WithText(d.parts, prose)| + 1;
    S.TwoPieces(ran, d, S.Prose(prose), call, rest);
    SettledStays(ran, one, rest, n);
    SettledAtTheEnd(ran, S.WithPieces(ran, one, rest), n);
  }

  // ------------------------------------------------------------------------------------ the results

  /** What the page would draw of a reply whose thoughts were all behind it at `j`: the regions
      before, the prose since, and the compelled call as one block. */
  ghost function DrawnWhole(reader: S.Reader, ran: seq<S.Call>, before: seq<Region>, s: string, j: nat, at: nat,
                            call: string): seq<S.Part>
    requires j <= at <= |s|
  {
    S.WithRest(ran, S.WithPieces(ran, S.WithRegions(reader, ran, S.Drawing([], 0), before),
                                 ProseAndCall(reader, s[j..], at - j, call)))
  }

  /** A compelled reply, with whatever thoughts came first, is drawn as those, its prose and
      its one call, whole, exactly where no thought opens after them, in the call or before
      it, and the call holds no fence of its own. */
  lemma CompelledAnswerIsDrawn(g: Rules, tools: seq<Tool>, s: string, k: int, call: string,
                               reader: S.Reader, ran: seq<S.Call>, before: seq<Region>, j: nat)
    requires Compiled(g, tools) && Calls(g, tools, s, k, call)
    requires j <= k - |TRIGGER| && RegionsOf(s) == before + CutFrom(s, j)
    requires O.NothingOpens(s[j..], 0, k - |TRIGGER| - j)
    ensures S.DrawnReply(reader, ran, s) == DrawnWhole(reader, ran, before, s, j, k - |TRIGGER|, call)
       <==> !Occurs("```", call) && !Occurs(OPEN, s[j..])
  {
    hide Compiled, IsCall, Occurs, NulFree, At, CutFrom, RegionsOf, S.FirstOpening, S.BlockOf, S.BlockEnd, S.WithRegions,
      S.WithPieces, S.WithRest, S.WithPiece;
    var u, at := s[j..], k - |TRIGGER| - j;
    var d := S.WithRegions(reader, ran, S.Drawing([], 0), before);
    RegionsInTwo(reader, ran, S.Drawing([], 0), before, CutFrom(s, j));
    NoThoughtOpens(s, j);
    assert u[k - j..] == s[k..];
    TriggerOpens(g, tools, s, k, call, j);
    if Occurs(OPEN, u) {
      ThoughtsAreDrawn(reader, ran, d, CutFrom(s, j));
      RestHasNoThought(ran, S.WithRegions(reader, ran, d, CutFrom(s, j)));
      PiecesHaveNoThought(ran, d, ProseAndCall(reader, u, at, call));
      RestHasNoThought(ran, S.WithPieces(ran, d, ProseAndCall(reader, u, at, call)));
    } else {
      OneAnswer(reader, ran, d, u);
      BlockOfCall(reader, u, at, call);
      AnswerOfCall(reader, ran, d, u, at, call);
    }
  }

  /** Where nothing opens ahead of it, the trigger is what opens. */
  lemma TriggerOpens(g: Rules, tools: seq<Tool>, s: string, k: int, call: string, j: nat)
    requires Calls(g, tools, s, k, call) && j <= k - |TRIGGER|
    requires O.NothingOpens(s[j..], 0, k - |TRIGGER| - j)
    ensures S.FirstOpening(s[j..], 0) == Some(S.Fenced(k - |TRIGGER| - j, S.TOOL_FENCE))
  {
    hide IsCall, Occurs, NulFree, S.FirstOpening, O.NothingOpens;
    var at := k - |TRIGGER|;
    assert s[at..k] == s[..k][at..at + |TRIGGER|] == TRIGGER;
    assert s[j..][at - j..at - j + |TRIGGER|] == s[at..k];
    O.FirstOpeningIsFirst(s[j..], 0, S.Fenced(at - j, S.TOOL_FENCE));
  }

  lemma AnswerOfCall(reader: S.Reader, ran: seq<S.Call>, d: S.Drawing, u: string, at: nat, call: string)
    requires at + |TRIGGER| <= |u| && u[at + |TRIGGER|..] == "\n" + call + "\n```"
    requires S.FirstOpening(u, 0) == Some(S.Fenced(at, S.TOOL_FENCE))
    ensures S.WithRest(ran, S.WithPieces(ran, d, S.Pieces(reader, u, 0)))
         == S.WithRest(ran, S.WithPieces(ran, d, ProseAndCall(reader, u, at, call)))
       <==> !Occurs("```", call)
  {
    hide Occurs, S.FirstOpening, S.BlockOf, S.BlockEnd, S.WithPieces, S.WithRest, S.WithText;
    var o := S.Fenced(at, S.TOOL_FENCE);
    BlockOfCall(reader, u, at, call);
    var block, end, target := S.BlockOf(reader, u, o), S.BlockEnd(u, o), ProseAndCall(reader, u, at, call);
    assert u[0..at] == u[..at];
    assert S.Pieces(reader, u, 0) == [S.Prose(u[..at]), block] + S.Pieces(reader, u, end);
    if Occurs("```", call) {
      FirstCallDrawn(ran, d, u[..at], block, S.Pieces(reader, u, end));
      FirstCallDrawn(ran, d, u[..at], target[1], []);
      assert [S.Prose(u[..at]), target[1]] + [] == target;
      assert block.Source() == u[at..end] && |u[at..end]| < |u[at..]|;
    } else {
      assert S.Pieces(reader, u, |u|) == [];
      assert [S.Prose(u[..at]), block] + [] == target;
    }
  }

  /** A reply nobody thought in: drawn as its prose and its one call exactly where neither tag
      of a thought is in it anywhere, the call's arguments included, and the call holds no
      fence. A file of Markdown, or of a chat template, as an argument is cut. */
  lemma CompelledReplyIsDrawn(g: Rules, tools: seq<Tool>, s: string, k: int, call: string,
                              reader: S.Reader, ran: seq<S.Call>)
    requires Compiled(g, tools) && Calls(g, tools, s, k, call)
    requires |TRIGGER| <= k && O.NothingOpens(s, 0, k - |TRIGGER|)
    ensures S.DrawnReply(reader, ran, s) == DrawnWhole(reader, ran, [], s, 0, k - |TRIGGER|, call)
       <==> !Occurs("```", call) && !Occurs(OPEN, s) && !Occurs(CLOSE, s)
  {
    hide Compiled, Calls, Occurs, At, CutFrom, S.FirstOpening, S.WithRegions, S.WithPieces, S.WithRest;
    KFits(g, tools, s, k, call);
    HeadlessExactlyWhen(s);
    assert s[0..] == s;
    if Headless(s) {
      var close := IndexOf(s, CLOSE, 0).value;
      CloseFits(s, close);
      var head := [Region(true, s[..close], false)];
      RegionsInTwo(reader, ran, S.Drawing([], 0), head, CutFrom(s, close + |CLOSE|));
      assert head[..0] == [] && Thoughts(head) == 1;
      ThoughtsAreDrawn(reader, ran, S.Drawing([], 0), RegionsOf(s));
      RestHasNoThought(ran, S.WithRegions(reader, ran, S.Drawing([], 0), RegionsOf(s)));
      NothingBefore(reader, ran);
      PiecesHaveNoThought(ran, S.Drawing([], 0), ProseAndCall(reader, s, k - |TRIGGER|, call));
      RestHasNoThought(ran, S.WithPieces(ran, S.Drawing([], 0), ProseAndCall(reader, s, k - |TRIGGER|, call)));
    } else {
      assert [] + CutFrom(s, 0) == CutFrom(s, 0);
      CompelledAnswerIsDrawn(g, tools, s, k, call, reader, ran, [], 0);
    }
  }

  lemma KFits(g: Rules, tools: seq<Tool>, s: string, k: int, call: string)
    requires Calls(g, tools, s, k, call)
    ensures |TRIGGER| <= k <= |s|
  {
  }

  lemma CloseFits(s: string, close: nat)
    requires At(CLOSE, s, close)
    ensures close + |CLOSE| <= |s|
  {
  }

  lemma NothingBefore(reader: S.Reader, ran: seq<S.Call>)
    ensures S.WithRegions(reader, ran, S.Drawing([], 0), []) == S.Drawing([], 0) && ThoughtsIn([]) == 0
  {
  }

  /** With no opening tag, a closing one anywhere makes all before it a thought. */
  lemma HeadlessExactlyWhen(s: string)
    ensures Headless(s) ==> Occurs(CLOSE, s)
    ensures !Occurs(OPEN, s) && Occurs(CLOSE, s) ==> Headless(s)
  {
    hide At;
    var close := IndexOf(s, CLOSE, 0);
    if close.Some? {
      assert At(CLOSE, s, close.value);
      CloseFits(s, close.value);
      var first := IndexOf(s[..close.value], OPEN, 0);
      if first.Some? {
        PrefixOf(s, close.value, first.value);
      }
    }
    if a :| At(CLOSE, s, a) {
      CloseStarts(s, a);
    }
  }

  lemma CloseStarts(s: string, a: int)
    requires At(CLOSE, s, a)
    ensures 0 <= a
  {
  }

  lemma PrefixOf(s: string, end: nat, a: nat)
    requires end <= |s| && At(OPEN, s[..end], a)
    ensures At(OPEN, s, a) && Occurs(OPEN, s)
  {
    assert s[..end][a..a + |OPEN|] == s[a..a + |OPEN|];
    assert At(OPEN, s, a);
  }
}
