/** How a quoted span and a tool result are written, in full or as a citation, and which
    bytes of each path are current. */
module Spans {
  import opened Conversation

  /** Rule A: what a span the window already shows costs the turn that carries it again. */
  datatype Repeat = Always | Once

  /** Rule B: whether old turns give up their spans before they are evicted. */
  datatype Prune = Never | Behind

  /** Rule C: what a turn behind the prune line does with its tool output. */
  datatype Results = Kept | CitedReads | Cited

  /** The current bytes of each path, as an association list. */
  datatype Current = Current(bodies: seq<(string, string)>)
  {
    /** A later read of the same path got different bytes. */
    predicate Superseded(f: Fragment) {
      exists i | 0 <= i < |bodies| :: bodies[i].0 == f.path && bodies[i].1 != f.text
    }
  }

  /** One more read, folded in: the first entry of its path is overwritten, and a path
      not seen before is appended. */
  function Noted(bodies: seq<(string, string)>, f: Fragment): seq<(string, string)> {
    if bodies == [] then [(f.path, f.text)]
    else if bodies[0].0 == f.path then [(f.path, f.text)] + bodies[1..]
    else [bodies[0]] + Noted(bodies[1..], f)
  }

  function NotedAll(carried: seq<Fragment>): seq<(string, string)> {
    if carried == [] then [] else Noted(NotedAll(carried[..|carried| - 1]), carried[|carried| - 1])
  }

  /** Supersession is rule A's repair: without the rule there is nothing to supersede. */
  function CurrentOf(carried: seq<Fragment>, repeat: Repeat): Current {
    if repeat.Always? then Current([]) else Current(NotedAll(carried))
  }

  /** The independent reading: the bytes the youngest read of `path` got. */
  function NewestBody(carried: seq<Fragment>, path: string): Option<string> {
    if carried == [] then None
    else if carried[|carried| - 1].path == path then Some(carried[|carried| - 1].text)
    else NewestBody(carried[..|carried| - 1], path)
  }

  predicate Stale(carried: seq<Fragment>, f: Fragment) {
    var newest := NewestBody(carried, f.path);
    newest.Some? && newest.value != f.text
  }

  predicate DistinctPaths(bodies: seq<(string, string)>) {
    forall i, j | 0 <= i < j < |bodies| :: bodies[i].0 != bodies[j].0
  }

  ghost predicate Holds(bodies: seq<(string, string)>, path: string, body: string) {
    exists i | 0 <= i < |bodies| :: bodies[i] == (path, body)
  }

  lemma {:induction false} NotedMeaning(bodies: seq<(string, string)>, f: Fragment)
    requires DistinctPaths(bodies)
    ensures DistinctPaths(Noted(bodies, f))
    ensures forall p, b :: Holds(Noted(bodies, f), p, b) <==> (if p == f.path then b == f.text else Holds(bodies, p, b))
  {
    var after := Noted(bodies, f);
    if bodies == [] {
      assert after[0] == (f.path, f.text);
    } else if bodies[0].0 == f.path {
      assert after[0] == (f.path, f.text);
      forall p, b | p != f.path ensures Holds(after, p, b) <==> Holds(bodies, p, b) {
        forall i | 0 < i < |bodies| ensures after[i] == bodies[i] {}
      }
    } else {
      NotedMeaning(bodies[1..], f);
      var rest := Noted(bodies[1..], f);
      assert after[1..] == rest;
      forall p, b ensures Holds(after, p, b) <==> bodies[0] == (p, b) || Holds(rest, p, b) {
        HoldsCons(bodies[0], rest, p, b);
      }
      forall p, b ensures Holds(bodies, p, b) <==> bodies[0] == (p, b) || Holds(bodies[1..], p, b) {
        HoldsCons(bodies[0], bodies[1..], p, b);
        assert bodies == [bodies[0]] + bodies[1..];
      }
      forall j | 0 < j < |after| ensures after[0].0 != after[j].0 {
        assert Holds(rest, after[j].0, after[j].1) by { assert rest[j - 1] == after[j]; }
        if after[j].0 != f.path {
          var k :| 0 <= k < |bodies[1..]| && bodies[1..][k] == (after[j].0, after[j].1);
          assert bodies[k + 1].0 == after[j].0;
        }
      }
      forall i, j | 0 <= i < j < |after| ensures after[i].0 != after[j].0 {
        if i > 0 { assert rest[i - 1] == after[i] && rest[j - 1] == after[j]; }
      }
    }
  }

  lemma HoldsCons(x: (string, string), rest: seq<(string, string)>, p: string, b: string)
    ensures Holds([x] + rest, p, b) <==> x == (p, b) || Holds(rest, p, b)
  {
    if x == (p, b) { assert ([x] + rest)[0] == (p, b); }
    if Holds(rest, p, b) {
      var i :| 0 <= i < |rest| && rest[i] == (p, b);
      assert ([x] + rest)[i + 1] == (p, b);
    }
  }

  lemma {:induction false} NotedAllMeaning(carried: seq<Fragment>)
    ensures DistinctPaths(NotedAll(carried))
    ensures forall p, b :: Holds(NotedAll(carried), p, b) <==> NewestBody(carried, p) == Some(b)
  {
    if carried != [] {
      NotedAllMeaning(carried[..|carried| - 1]);
      NotedMeaning(NotedAll(carried[..|carried| - 1]), carried[|carried| - 1]);
    }
  }

  /** The list the walk builds supersedes exactly the spans whose path was last read
      with other bytes. */
  lemma SupersededMeansStale(carried: seq<Fragment>, f: Fragment)
    ensures CurrentOf(carried, Once).Superseded(f) <==> Stale(carried, f)
  {
    NotedAllMeaning(carried);
    var bodies := NotedAll(carried);
    if Stale(carried, f) {
      var b := NewestBody(carried, f.path).value;
      assert Holds(bodies, f.path, b);
    }
    if i :| 0 <= i < |bodies| && bodies[i].0 == f.path && bodies[i].1 != f.text {
      assert Holds(bodies, f.path, bodies[i].1);
    }
  }

  lemma {:induction false} NewestBodyAppend(a: seq<Fragment>, b: seq<Fragment>, path: string)
    ensures NewestBody(a + b, path) == if NewestBody(b, path).Some? then NewestBody(b, path) else NewestBody(a, path)
  {
    if b == [] {
      assert a + b == a;
    } else {
      assert (a + b)[..|a + b| - 1] == a + b[..|b| - 1];
      NewestBodyAppend(a, b[..|b| - 1], path);
    }
  }

  /** A body that went stale comes back only if somebody carried those very bytes again. */
  lemma {:induction false} StaleUntilReadAgain(carried: seq<Fragment>, later: seq<Fragment>, f: Fragment)
    requires Stale(carried, f) && f !in later
    ensures Stale(carried + later, f)
  {
    if later == [] {
      assert carried + later == carried;
    } else {
      StaleUntilReadAgain(carried, later[..|later| - 1], f);
      assert (carried + later)[..|carried + later| - 1] == carried + later[..|later| - 1];
      assert later[|later| - 1] in later;
    }
  }

  /** How a span goes out: its bytes, the guarded citation of a pruned turn, or the bytes
      unless the session has since read the path differently. */
  datatype Look = Bytes | Pruned | Shown(current: Current)

  function FragmentText(f: Fragment): string {
    "// " + f.path + "\n" + f.text + "\n\n"
  }

  function Citation(f: Fragment, why: string, c: TokenCounter): string {
    "// " + f.path + " — " + Decimal(c.count(FragmentText(f))) + " tokens, " + why + "\n\n"
  }

  function SpanText(f: Fragment, look: Look, c: TokenCounter): string {
    match look
    case Bytes => FragmentText(f)
    case Pruned =>
      var citation := Citation(f, "pruned", c);
      if c.count(citation) < c.count(FragmentText(f)) then citation else FragmentText(f)
    case Shown(current) =>
      if current.Superseded(f) then Citation(f, "superseded", c) else FragmentText(f)
  }

  function SpanTokens(f: Fragment, look: Look, c: TokenCounter): nat {
    c.count(SpanText(f, look, c))
  }

  function SpansText(code: seq<Fragment>, look: Look, c: TokenCounter): string {
    if code == [] then "" else SpanText(code[0], look, c) + SpansText(code[1..], look, c)
  }

  function SpansTokens(code: seq<Fragment>, look: Look, c: TokenCounter): nat {
    if code == [] then 0 else SpanTokens(code[0], look, c) + SpansTokens(code[1..], look, c)
  }

  /** What the user message of a turn says: its spans, then its prompt. */
  function UserText(code: seq<Fragment>, look: Look, prompt: string, c: TokenCounter): string {
    SpansText(code, look, c) + prompt
  }

  predicate CouldBeReadAgain(tool: string) {
    tool == "read_file" || tool == "list_dir"
  }

  function PrunedResultText(step: ToolStep, c: TokenCounter): string {
    var full := step.ResultText();
    var citation := "[" + step.call.name + "] output — " + Decimal(c.count(full)) + " tokens, pruned";
    if c.count(citation) < c.count(full) then citation else full
  }

  function ResultUnder(step: ToolStep, results: Results, c: TokenCounter): string {
    match results
    case Kept => step.ResultText()
    case Cited => PrunedResultText(step, c)
    case CitedReads => if CouldBeReadAgain(step.call.name) then PrunedResultText(step, c) else step.ResultText()
  }

  function ResultsTokens(steps: seq<ToolStep>, results: Results, c: TokenCounter): nat {
    if steps == [] then 0
    else c.count(ResultUnder(steps[0], results, c)) + ResultsTokens(steps[1..], results, c)
  }

  /** A reply is sent once, with the first of its calls. */
  function AskedTokens(step: ToolStep, c: TokenCounter): nat {
    if step.index == 1 then c.count(step.text) else 0
  }

  function StepsTokens(steps: seq<ToolStep>, c: TokenCounter): nat {
    if steps == [] then 0
    else AskedTokens(steps[0], c) + c.count(steps[0].ResultText()) + StepsTokens(steps[1..], c)
  }

  function StepMessages(step: ToolStep, results: Results, c: TokenCounter): seq<Message> {
    (if step.index == 1 then [Message(Assistant, step.text)] else [])
    + [Message(User, ResultUnder(step, results, c))]
  }

  /** The exchanges of a turn as they are replayed: each reply once, and each result. */
  function Replay(steps: seq<ToolStep>, results: Results, c: TokenCounter): seq<Message> {
    if steps == [] then []
    else Replay(steps[..|steps| - 1], results, c) + StepMessages(steps[|steps| - 1], results, c)
  }

  /** The same with every result in full, which no counter has a say in. */
  function Verbatim(steps: seq<ToolStep>): seq<Message> {
    if steps == [] then []
    else
      var step := steps[|steps| - 1];
      Verbatim(steps[..|steps| - 1])
      + (if step.index == 1 then [Message(Assistant, step.text)] else []) + [Message(User, step.ResultText())]
  }

  lemma {:induction false} KeptResultsAreVerbatim(steps: seq<ToolStep>, c: TokenCounter)
    ensures Replay(steps, Kept, c) == Verbatim(steps)
  {
    if steps != [] {
      KeptResultsAreVerbatim(steps[..|steps| - 1], c);
    }
  }

  lemma {:induction false} SpansTokensOfText(code: seq<Fragment>, look: Look, c: TokenCounter)
    requires Additive(c)
    ensures c.count(SpansText(code, look, c)) == SpansTokens(code, look, c)
  {
    if code == [] {
      AdditiveOnEmpty(c);
    } else {
      SpansTokensOfText(code[1..], look, c);
      assert c.count(SpanText(code[0], look, c) + SpansText(code[1..], look, c))
          == c.count(SpanText(code[0], look, c)) + c.count(SpansText(code[1..], look, c));
    }
  }

  lemma UserTextTokens(code: seq<Fragment>, look: Look, prompt: string, c: TokenCounter)
    requires Additive(c)
    ensures c.count(UserText(code, look, prompt, c)) == SpansTokens(code, look, c) + c.count(prompt)
  {
    SpansTokensOfText(code, look, c);
  }

  /** The citation guard: under any counter, a turn behind the line never sends more. */
  lemma {:induction false} PrunedNeverDearer(code: seq<Fragment>, c: TokenCounter)
    ensures SpansTokens(code, Pruned, c) <= SpansTokens(code, Bytes, c)
  {
    if code != [] {
      PrunedNeverDearer(code[1..], c);
    }
  }

  lemma {:induction false} ResultsNeverDearer(steps: seq<ToolStep>, results: Results, c: TokenCounter)
    ensures ResultsTokens(steps, results, c) <= ResultsTokens(steps, Kept, c) <= StepsTokens(steps, c)
  {
    if steps != [] {
      ResultsNeverDearer(steps[1..], results, c);
    }
  }

  lemma {:induction false} ResultsTokensSnoc(steps: seq<ToolStep>, results: Results, c: TokenCounter)
    requires steps != []
    ensures ResultsTokens(steps, results, c)
         == ResultsTokens(steps[..|steps| - 1], results, c) + c.count(ResultUnder(steps[|steps| - 1], results, c))
    ensures StepsTokens(steps, c)
         == StepsTokens(steps[..|steps| - 1], c) + AskedTokens(steps[|steps| - 1], c)
            + c.count(steps[|steps| - 1].ResultText())
  {
    if |steps| > 1 {
      ResultsTokensSnoc(steps[1..], results, c);
      assert steps[1..][..|steps| - 2] == steps[..|steps| - 1][1..];
    }
  }

  /** The replayed exchanges cost the stored step count, less the results given up, plus
      what stands for them. */
  lemma {:induction false} ReplayTokens(steps: seq<ToolStep>, results: Results, c: TokenCounter)
    ensures MessagesTokens(Replay(steps, results, c), c) + ResultsTokens(steps, Kept, c)
         == StepsTokens(steps, c) + ResultsTokens(steps, results, c)
  {
    if steps != [] {
      var step := steps[|steps| - 1];
      ReplayTokens(steps[..|steps| - 1], results, c);
      ResultsTokensSnoc(steps, results, c);
      ResultsTokensSnoc(steps, Kept, c);
      MessagesTokensAppend(Replay(steps[..|steps| - 1], results, c), StepMessages(step, results, c), c);
      StepMessagesTokens(step, results, c);
    }
  }

  lemma StepMessagesTokens(step: ToolStep, results: Results, c: TokenCounter)
    ensures MessagesTokens(StepMessages(step, results, c), c)
         == AskedTokens(step, c) + c.count(ResultUnder(step, results, c))
  {
    var result := Message(User, ResultUnder(step, results, c));
    OneMessageTokens(result, c);
    if step.index == 1 {
      OneMessageTokens(Message(Assistant, step.text), c);
      MessagesTokensAppend([Message(Assistant, step.text)], [result], c);
    } else {
      assert StepMessages(step, results, c) == [result];
    }
  }
}
