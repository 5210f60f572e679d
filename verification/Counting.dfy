/** Why the stored counts can be trusted: each is made by the counter in force where the text
    is stored, and nothing afterwards touches the text it counts. */
module Counting {
  import opened Conversation
  import opened Spans
  import opened Jobs
  import opened Window
  import opened Walks
  import opened Lifecycle

  /** A push counts the turn it stores. */
  lemma PushCounts(w: Window, turn: Turn)
    requires Counted(w) && turn.tokens == TurnTokens(turn, w.counter)
    ensures Counted(w.(turns := w.turns + [turn], jobs := Landed(w.jobs, turn.prompt)))
  {
    hide TurnTokens;
    var after := Landed(w.jobs, turn.prompt);
    forall i | 0 <= i < |after| && after[i].summary.Some? ensures i < |w.jobs| && after[i] == w.jobs[i] {}
  }

  /** A close counts the summary it writes; a reopen drops it; an approval adds a job that
      has none. */
  lemma LifecycleCounts(w: Window, id: JobId, text: string, closer: ClosedBy, replaced: Replaced,
                        objective: string, plan: Plan, approver: ApprovedBy)
    requires Counted(w) && Numbered(w.jobs)
    ensures Counted(w.(jobs := CloseJob(w.jobs, id, text, w.counter, closer, replaced)))
    ensures Counted(w.(jobs := ReopenJob(w.jobs, id)))
    ensures Counted(w.(jobs := w.jobs + [Planned(|w.jobs| + 1, objective, plan, approver)]))
  {
    hide TurnTokens;
  }

  /** A count is taken as it was stored by the counter that made it, and made again for any
      other: the turn's as the messages it sends in full, a fold's as its text. */
  lemma CountsAreTakenOrMade(turn: Turn, summary: Summary, c: TokenCounter)
    requires Additive(c)
    ensures TokensOf(turn, c) == if turn.countedBy == c.id then turn.tokens
                                 else SpansTokens(turn.code, Bytes, c) + c.count(turn.prompt)
                                      + MessagesTokens(Verbatim(turn.steps), c) + c.count(turn.answer)
    ensures SummaryTokensOf(summary, c) == if summary.countedBy == c.id then summary.tokens else c.count(summary.text)
  {
    TurnTokensExact(turn, c);
    KeptResultsAreVerbatim(turn.steps, c);
  }
}
