/** What goes out, word for word: how spans, results and numbers are written, and which
    message says what. */
module Shapes {
  import opened Conversation
  import opened Spans
  import opened Jobs
  import opened Window
  import opened Render
  import opened Selection
  import opened SystemBlock

  // ------------------------------------------------------------------------------ numbers

  /** A number read back from its digits. */
  function Value(text: string): int {
    if text == "" then 0 else 10 * Value(text[..|text| - 1]) + (text[|text| - 1] as int - '0' as int)
  }

  lemma DigitIs(d: nat)
    requires d < 10
    ensures '0' <= Digit(d) <= '9' && Digit(d) as int - '0' as int == d
  {
  }

  /** A number is written in digits, with no zero ahead of it, and reads back as itself. */
  lemma {:induction false} DecimalReadsBack(n: nat)
    ensures Value(Decimal(n)) == n && forall i | 0 <= i < |Decimal(n)| :: '0' <= Decimal(n)[i] <= '9'
    ensures Decimal(n)[0] == '0' <==> n == 0
  {
    DigitIs(n % 10);
    if n >= 10 {
      DecimalReadsBack(n / 10);
      assert Decimal(n)[..|Decimal(n)| - 1] == Decimal(n / 10);
    } else {
      assert Decimal(n)[..0] == "" && Value("") == 0;
    }
  }

  // -------------------------------------------------------------------------------- spans

  /** A span goes out under its path, with its bytes or with what they cost and why they are
      not there: behind the line only where that is shorter, and above it exactly where the
      path has been read differently since. */
  lemma HowASpanLooks(f: Fragment, current: Current, c: TokenCounter)
    ensures var full := "// " + f.path + "\n" + f.text + "\n\n";
      var cost := Decimal(c.count(full));
      var pruned := "// " + f.path + " — " + cost + " tokens, pruned\n\n";
      && SpanText(f, Bytes, c) == full
      && SpanText(f, Pruned, c) == (if c.count(pruned) < c.count(full) then pruned else full)
      && SpanText(f, Shown(current), c)
         == (if current.Superseded(f) then "// " + f.path + " — " + cost + " tokens, superseded\n\n" else full)
  {
    var head := "// " + f.path + " — " + Decimal(c.count(FragmentText(f)));
    assert head + " tokens, " + "pruned" + "\n\n" == head + " tokens, pruned\n\n";
    assert head + " tokens, " + "superseded" + "\n\n" == head + " tokens, superseded\n\n";
  }

  /** A turn's question comes last, after its spans in their order. */
  lemma HowATurnAsks(f: Fragment, rest: seq<Fragment>, look: Look, prompt: string, c: TokenCounter)
    ensures UserText([], look, prompt, c) == prompt
    ensures UserText([f] + rest, look, prompt, c) == SpanText(f, look, c) + UserText(rest, look, prompt, c)
  {
    assert ([f] + rest)[1..] == rest;
  }

  // ------------------------------------------------------------------------------ results

  /** A result says its tool, then its error or that there was none, then its output, and
      where that was cut, after how much. */
  lemma HowAResultLooks(outcome: ToolOutcome, name: string)
    ensures var head := "[" + name + "] " + if outcome.error.Some? then outcome.error.value else "ok";
      var body := if outcome.output == "" then head else head + "\n" + outcome.output;
      outcome.Render(name) == if outcome.truncated then body + "\n[" + name + "] output cut at 8192 bytes" else body
  {
    hide Decimal;
    EightThousand();
  }

  lemma EightThousand()
    ensures Decimal(MAX_OUTPUT_BYTES) == "8192"
  {
    assert Decimal(8) == "8" && Decimal(81) == "81" && Decimal(819) == "819" && Decimal(8192) == "8192";
  }

  /** Behind the line a result gives way to a citation only where that is shorter, and there
      under one policy whatever the tool, under another only where the tool could be run
      again to the same effect. */
  lemma WhenAResultGivesWay(step: ToolStep, results: Results, c: TokenCounter)
    ensures var full := step.ResultText();
      var citation := "[" + step.call.name + "] output — " + Decimal(c.count(full)) + " tokens, pruned";
      var gives := results == Cited || (results == CitedReads && step.call.name in {"read_file", "list_dir"});
      ResultUnder(step, results, c) == if gives && c.count(citation) < c.count(full) then citation else full
  {
  }

  /** One step is the reply it came from, where it is that reply's first, and its result,
      which the model is told as a user would tell it. */
  lemma HowAStepReplays(step: ToolStep, results: Results, c: TokenCounter)
    ensures Verbatim([step])
         == if step.index == 1 then [Message(Assistant, step.text), Message(User, step.ResultText())]
            else [Message(User, step.ResultText())]
    ensures Replay([step], results, c)
         == if step.index == 1 then [Message(Assistant, step.text), Message(User, ResultUnder(step, results, c))]
            else [Message(User, ResultUnder(step, results, c))]
  {
    assert [step][..0] == [] && Verbatim([]) == [] && Replay([], results, c) == [];
  }

  /** And steps replay one after another. */
  lemma {:induction false} StepsReplayInOrder(a: seq<ToolStep>, b: seq<ToolStep>, results: Results, c: TokenCounter)
    ensures Verbatim(a + b) == Verbatim(a) + Verbatim(b) && Replay(a + b, results, c) == Replay(a, results, c) + Replay(b, results, c)
  {
    hide StepMessages;
    if b == [] {
      assert a + b == a;
    } else {
      var front := b[..|b| - 1];
      assert (a + b)[..|a + b| - 1] == a + front;
      StepsReplayInOrder(a, front, results, c);
    }
  }

  // ----------------------------------------------------------------------------- messages

  /** A turn is its question, its exchanges and its answer: above the line with every result
      in full, behind it with spans and results as they are given up there. */
  lemma HowATurnRenders(w: Window, turn: Turn, kept: seq<Fragment>)
    ensures LiveMessages(w, turn, kept)
         == [Message(User, UserText(kept, Shown(w.current), turn.prompt, w.counter))] + Verbatim(turn.steps)
            + [Message(Assistant, turn.answer)]
    ensures PrunedMessages(w, turn)
         == [Message(User, UserText(turn.code, Pruned, turn.prompt, w.counter))]
            + Replay(turn.steps, w.results, w.counter) + [Message(Assistant, turn.answer)]
  {
    KeptResultsAreVerbatim(turn.steps, w.counter);
  }

  /** What two renderings of one turn agree on: how many messages, who says each, and every
      word of the model's. */
  predicate SameVoices(a: seq<Message>, b: seq<Message>) {
    |a| == |b| && forall i | 0 <= i < |a| ::
      a[i].role == b[i].role && a[i].role != System && (a[i].role == Assistant ==> a[i].content == b[i].content)
  }

  lemma SameVoicesAppend(a: seq<Message>, b: seq<Message>, x: seq<Message>, y: seq<Message>)
    requires SameVoices(a, b) && SameVoices(x, y)
    ensures SameVoices(a + x, b + y)
  {
  }

  lemma {:induction false} RepliesStayVerbatim(steps: seq<ToolStep>, results: Results, other: Results, c: TokenCounter)
    ensures SameVoices(Replay(steps, results, c), Replay(steps, other, c))
  {
    hide ResultUnder;
    if steps != [] {
      RepliesStayVerbatim(steps[..|steps| - 1], results, other, c);
      SameVoicesAppend(Replay(steps[..|steps| - 1], results, c), Replay(steps[..|steps| - 1], other, c),
                       StepMessages(steps[|steps| - 1], results, c), StepMessages(steps[|steps| - 1], other, c));
    }
  }

  /** Pruning takes nothing from what the model said and changes nobody's turn to speak. */
  lemma PruningKeepsTheVoices(w: Window, turn: Turn, kept: seq<Fragment>)
    ensures SameVoices(PrunedMessages(w, turn), LiveMessages(w, turn, kept))
  {
    hide UserText;
    RepliesStayVerbatim(turn.steps, w.results, Results.Kept, w.counter);
    var before, after := UserText(turn.code, Pruned, turn.prompt, w.counter), UserText(kept, Shown(w.current), turn.prompt, w.counter);
    SameVoicesAppend([Message(User, before)], [Message(User, after)], Replay(turn.steps, w.results, w.counter),
                     Replay(turn.steps, Results.Kept, w.counter));
    SameVoicesAppend([Message(User, before)] + Replay(turn.steps, w.results, w.counter),
                     [Message(User, after)] + Replay(turn.steps, Results.Kept, w.counter),
                     [Message(Assistant, turn.answer)], [Message(Assistant, turn.answer)]);
  }

  /** A fold asks what the job was for and answers with what came of it. */
  lemma HowAFoldRenders(w: Window, job: JobId)
    requires FindJob(w.jobs, job).Some? && FindJob(w.jobs, job).value.summary.Some?
    ensures FoldMessages(w, job)
         == [Message(User, FindJob(w.jobs, job).value.objective),
             Message(Assistant, FindJob(w.jobs, job).value.summary.value.text)]
  {
  }

  /** The prompt: the system message, which is the only one, then the history item by item,
      and last the question under the spans nothing before it shows. */
  lemma HowThePromptStands(w: Window, floor: nat, pruned: nat, system: string, code: seq<Fragment>, prompt: string)
    ensures var messages := Prompt(w, floor, pruned, system, code, prompt);
      && |messages| >= 2 && messages[0] == Message(System, system)
      && messages[1..|messages| - 1] == HistoryMessages(w, w.Items(floor), pruned)
      && messages[|messages| - 1]
         == Message(User, UserText(QuestionSpans(w, floor, pruned, code), Bytes, prompt, w.counter))
      && forall i | 0 < i < |messages| :: messages[i].role != System
  {
    hide HistoryMessages, UserText, QuestionSpans;
    NobodyElseIsSystem(w, w.Items(floor), pruned);
  }

  lemma {:induction false} NobodyElseIsSystem(w: Window, items: seq<Item>, pruned: nat)
    requires w.Holds(items)
    ensures forall i | 0 <= i < |HistoryMessages(w, items, pruned)| :: HistoryMessages(w, items, pruned)[i].role != System
  {
    hide LiveMessages, PrunedMessages, ShownBy, KeptSpans;
    if items != [] {
      NobodyElseIsSystem(w, items[..|items| - 1], pruned);
      var last := items[|items| - 1];
      if last.Live? {
        PruningKeepsTheVoices(w, w.turns[last.index],
                              KeptSpans(w.repeat, w.turns[last.index].code, ShownBy(w, items[..|items| - 1], pruned)));
      }
    }
  }

  /** The history is its items' messages, oldest first. */
  lemma HowTheHistoryGrows(w: Window, items: seq<Item>, item: Item, pruned: nat)
    requires w.Holds(items + [item])
    ensures w.Holds(items) && (item.Live? ==> item.index < |w.turns|)
    ensures HistoryMessages(w, [], pruned) == []
    ensures HistoryMessages(w, items + [item], pruned)
         == HistoryMessages(w, items, pruned)
            + match item
              case Folded(job, _) => FoldMessages(w, job)
              case Live(i) =>
                if i < pruned then PrunedMessages(w, w.turns[i])
                else LiveMessages(w, w.turns[i], KeptSpans(w.repeat, w.turns[i].code, ShownBy(w, items, pruned)))
  {
    hide LiveMessages, PrunedMessages, FoldMessages, ShownBy, KeptSpans;
    var all := items + [item];
    assert all[|items|] == item && all[..|items|] == items;
    forall i | 0 <= i < |items| ensures items[i] == all[i] {}
  }

  /** The system message is the text and then what there is of the tools, where they are not
      sent apart, of the outline and of the note, each after a blank line. */
  lemma HowTheSystemMessageStands(system: string, tools: string, native: bool, outline: string, note: Option<string>)
    ensures WithBlocks(system, Blocks(tools, native, outline, note))
         == system + (if native || tools == "" then "" else "\n\n" + tools)
            + (if outline == "" then "" else "\n\n" + outline)
            + (match note case Some(text) => "\n\n" + text case None => "")
  {
    hide WithBlocks;
    var a, b := (if native || tools == "" then [] else [tools]), if outline == "" then [] else [outline];
    var c := match note case Some(text) => [text] case None => [];
    BlocksInOrder(system, a + b, c);
    BlocksInOrder(system, a, b);
    MaybeOneBlock(system, tools, !(native || tools == ""));
    MaybeOneBlock(WithBlocks(system, a), outline, outline != "");
    MaybeOneBlock(WithBlocks(system, a + b), note.GetOr(""), note.Some?);
  }

  lemma MaybeOneBlock(text: string, block: string, there: bool)
    ensures WithBlocks(text, if there then [block] else []) == text + if there then "\n\n" + block else ""
  {
    if there {
      var one := [block];
      assert one[..|one| - 1] == [] && WithBlocks(text, []) == text;
      assert text + "\n\n" + block == text + ("\n\n" + block);
    }
  }

  lemma {:induction false} BlocksInOrder(text: string, a: seq<string>, b: seq<string>)
    ensures WithBlocks(text, a + b) == WithBlocks(WithBlocks(text, a), b)
  {
    if b == [] {
      assert a + b == a;
    } else {
      assert (a + b)[..|a + b| - 1] == a + b[..|b| - 1];
      BlocksInOrder(text, a, b[..|b| - 1]);
    }
  }
}
