/** The session as a reader of its announcements has it: the fold of protocol messages, and
    the context a resume rebuilds from that fold. */
module SessionView {
  import opened Conversation
  import opened Jobs

  /** One call as it was announced, and what came back of it, once something has. */
  datatype CallView = CallView(step: nat, index: Option<nat>, call: ToolCall, verdict: Option<Verdict>,
                               error: Option<string>, output: string, truncated: bool,
                               asked: Option<bool>, grant: Option<GrantScope>)

  datatype TurnView = TurnView(turn: TurnId, job: Option<JobId>, prompt: string, tools: seq<CallView>,
                               dropped: Option<seq<TurnId>>, evictedBy: Option<TurnId>)

  datatype JobView = JobView(id: JobId, objective: string, plan: Option<Plan>, proposed: Option<Plan>,
                             source: Option<PlanSource>, state: JobState, summary: Option<string>,
                             closedBy: Option<ClosedBy>, approvedBy: Option<ApprovedBy>,
                             replaced: Option<Replaced>)

  datatype View = View(turns: seq<TurnView>, jobs: seq<JobView>, rounds: seq<Round>)

  datatype ServerMessage =
    | TurnStarted(turn: TurnId, prompt: string, within: Option<JobId>)
    | DraftOpened(job: JobId, turn: TurnId, objective: string)
    | PlanProposed(objective: string, plan: Plan, source: Option<PlanSource>)
    | PlanDeclined
    | Evicted(turn: TurnId, turns: seq<TurnId>)
    | JobApproved(job: JobId, folded: Option<JobId>, objective: string, plan: Plan, approvedBy: Option<ApprovedBy>)
    | JobClosed(job: JobId, summary: string, closer: Option<ClosedBy>, replaced: Option<Replaced>)
    | JobReopened(job: JobId)
    | CallMade(turn: TurnId, step: nat, index: Option<nat>, call: ToolCall)
    | CallAnswered(turn: TurnId, step: nat, index: Option<nat>, outcome: ToolOutcome,
                   asked: Option<bool>, grant: Option<GrantScope>)

  const EMPTY_PLAN := Plan([], [], [], [], None)

  // ------------------------------------------------------------------------------- finding things

  /** Where the first turn of that id is, or past the end. */
  function TurnAt(turns: seq<TurnView>, id: TurnId): (i: nat)
    ensures i <= |turns|
    ensures i < |turns| ==> turns[i].turn == id
    ensures forall k | 0 <= k < i :: turns[k].turn != id
  {
    if turns == [] || turns[0].turn == id then 0 else 1 + TurnAt(turns[1..], id)
  }

  function JobAt(jobs: seq<JobView>, id: JobId): (i: nat)
    ensures i <= |jobs|
    ensures i < |jobs| ==> jobs[i].id == id
    ensures forall k | 0 <= k < i :: jobs[k].id != id
  {
    if jobs == [] || jobs[0].id == id then 0 else 1 + JobAt(jobs[1..], id)
  }

  /** Where the call of that step and place is; a call that names no place is its step's first. */
  function CallAt(tools: seq<CallView>, step: nat, index: Option<nat>): (i: nat)
    ensures i <= |tools|
    ensures i < |tools| ==> tools[i].step == step && tools[i].index.GetOr(1) == index.GetOr(1)
    ensures forall k | 0 <= k < i :: !(tools[k].step == step && tools[k].index.GetOr(1) == index.GetOr(1))
  {
    if tools == [] || (tools[0].step == step && tools[0].index.GetOr(1) == index.GetOr(1)) then 0
    else 1 + CallAt(tools[1..], step, index)
  }

  /** Where the last unanswered round is, or past the end. */
  function OnTheTable(rounds: seq<Round>): (i: nat)
    ensures i <= |rounds|
    ensures i < |rounds| ==> rounds[i].answer.None? && forall k | i < k < |rounds| :: rounds[k].answer.Some?
    ensures i == |rounds| ==> forall k | 0 <= k < |rounds| :: rounds[k].answer.Some?
  {
    if rounds == [] then 0
    else
      var front := rounds[..|rounds| - 1];
      if rounds[|rounds| - 1].answer.None? then |front|
      else
        var i := OnTheTable(front);
        assert forall k | 0 <= k < |front| :: front[k] == rounds[k];
        if i < |front| then i else |rounds|
  }

  // ------------------------------------------------------------------------- what each message does

  function Answered(rounds: seq<Round>, answer: Answer): seq<Round> {
    var i := OnTheTable(rounds);
    if i < |rounds| then rounds[i := rounds[i].(answer := Some(answer))] else rounds
  }

  function Marked(turns: seq<TurnView>, id: TurnId, cutter: TurnId): seq<TurnView> {
    var i := TurnAt(turns, id);
    if i < |turns| then turns[i := turns[i].(evictedBy := Some(cutter))] else turns
  }

  function AllMarked(turns: seq<TurnView>, ids: seq<TurnId>, cutter: TurnId): seq<TurnView> {
    if ids == [] then turns
    else Marked(AllMarked(turns, ids[..|ids| - 1], cutter), ids[|ids| - 1], cutter)
  }

  function Dropped(turns: seq<TurnView>, id: TurnId, ids: seq<TurnId>): seq<TurnView> {
    var i := TurnAt(turns, id);
    if i < |turns| then turns[i := turns[i].(dropped := Some(ids))] else turns
  }

  function Attributed(turns: seq<TurnView>, id: TurnId, job: JobId): seq<TurnView> {
    var i := TurnAt(turns, id);
    if i < |turns| then turns[i := turns[i].(job := Some(job))] else turns
  }

  function Called(tools: seq<CallView>, step: nat, index: Option<nat>, call: ToolCall): seq<CallView> {
    if CallAt(tools, step, index) < |tools| then tools
    else tools + [CallView(step, index, call, None, None, "", false, None, None)]
  }

  function CameBack(tools: seq<CallView>, step: nat, index: Option<nat>, outcome: ToolOutcome,
                    asked: Option<bool>, grant: Option<GrantScope>): seq<CallView>
  {
    var i := CallAt(tools, step, index);
    if i == |tools| then tools
    else tools[i := tools[i].(verdict := Some(outcome.verdict), error := outcome.error, output := outcome.output,
                              truncated := outcome.truncated, asked := asked, grant := grant)]
  }

  function DraftView(id: JobId, objective: string): JobView {
    JobView(id, objective, None, None, None, Open, None, None, None, None)
  }

  /** The job an approval opens where the reader has none of that id. */
  function ApprovedView(rounds: seq<Round>, m: ServerMessage): JobView
    requires m.JobApproved?
  {
    var last := if rounds == [] then None else Some(rounds[|rounds| - 1]);
    JobView(m.job,
            if m.objective != "" then m.objective else if last.Some? then last.value.objective else "",
            Some(m.plan),
            if last.Some? && last.value.answer.None? then Some(last.value.plan) else None,
            if last.Some? then Some(last.value.source) else None,
            Open, None, None, Some(m.approvedBy.GetOr(Operator)), None)
  }

  /** A stream from before jobs alternated: the job was there already, as a proposal. */
  function MovedAlong(job: JobView, plan: Plan, approver: ApprovedBy): JobView {
    job.(state := Open, plan := if plan != EMPTY_PLAN then Some(plan) else job.plan, approvedBy := Some(approver))
  }

  function Applied(v: View, m: ServerMessage): View {
    match m
    case TurnStarted(turn, prompt, job) =>
      if TurnAt(v.turns, turn) < |v.turns| then v
      else v.(turns := v.turns + [TurnView(turn, job, prompt, [], None, None)])
    case DraftOpened(job, turn, objective) =>
      View(Attributed(v.turns, turn, job),
           if JobAt(v.jobs, job) < |v.jobs| then v.jobs else v.jobs + [DraftView(job, objective)],
           v.rounds)
    case PlanProposed(objective, plan, source) =>
      v.(rounds := v.rounds + [Round(objective, plan, source.GetOr(Prose), None)])
    case PlanDeclined =>
      v.(rounds := Answered(v.rounds, Declined))
    case Evicted(turn, turns) =>
      v.(turns := AllMarked(Dropped(v.turns, turn, turns), turns, turn))
    case JobApproved(job, _, _, plan, approvedBy) =>
      var i := JobAt(v.jobs, job);
      View(v.turns,
           if i < |v.jobs| then v.jobs[i := MovedAlong(v.jobs[i], plan, approvedBy.GetOr(Operator))]
           else v.jobs + [ApprovedView(v.rounds, m)],
           Answered(v.rounds, Approved(job)))
    case JobClosed(job, summary, closer, replaced) =>
      var i := JobAt(v.jobs, job);
      if i == |v.jobs| then v
      else v.(jobs := v.jobs[i := v.jobs[i].(state := Closed, summary := Some(summary),
                                             closedBy := Some(closer.GetOr(ByUser)), replaced := replaced)])
    case JobReopened(job) =>
      var i := JobAt(v.jobs, job);
      if i == |v.jobs| then v
      else v.(jobs := v.jobs[i := v.jobs[i].(state := Open, summary := None, closedBy := None, replaced := None)])
    case CallMade(turn, step, index, call) =>
      var i := TurnAt(v.turns, turn);
      if i == |v.turns| then v
      else v.(turns := v.turns[i := v.turns[i].(tools := Called(v.turns[i].tools, step, index, call))])
    case CallAnswered(turn, step, index, outcome, asked, grant) =>
      var i := TurnAt(v.turns, turn);
      if i == |v.turns| then v
      else v.(turns := v.turns[i := v.turns[i].(tools := CameBack(v.turns[i].tools, step, index, outcome, asked, grant))])
  }

  function AppliedAll(v: View, messages: seq<ServerMessage>): View {
    if messages == [] then v
    else Applied(AppliedAll(v, messages[..|messages| - 1]), messages[|messages| - 1])
  }

  lemma {:induction false} AppliedAllAppend(v: View, a: seq<ServerMessage>, b: seq<ServerMessage>)
    ensures AppliedAll(v, a + b) == AppliedAll(AppliedAll(v, a), b)
  {
    if b == [] {
      assert a + b == a;
    } else {
      var front := b[..|b| - 1];
      AppliedAllAppend(v, a, front);
      assert (a + b)[..|a + b| - 1] == a + front;
    }
  }

  lemma AppliedOne(v: View, m: ServerMessage)
    ensures AppliedAll(v, [m]) == Applied(v, m)
  {
    assert [m][..0] == [];
  }

  // ----------------------------------------------------------------------------------- the resume

  datatype RestoredTurn = RestoredTurn(id: TurnId, job: JobId, prompt: string, steps: seq<ToolStep>)

  /** How a call is written as JSON, which is not decided here. */
  datatype Wire = Wire(json: ToolCall -> string)

  function Refenced(wire: Wire, call: ToolCall): string {
    "```tool\n" + wire.json(call) + "\n```"
  }

  /** The words around a call are gone, so its text is written again from the call alone. */
  function RestoredStep(v: CallView, wire: Wire): ToolStep {
    ToolStep(Refenced(wire, v.call), v.call, v.index.GetOr(1),
             ToolOutcome(v.verdict.GetOr(Verdict(true, "resumed")), v.output, v.error, v.truncated), v.asked, v.grant)
  }

  function RestoredSteps(tools: seq<CallView>, wire: Wire): (steps: seq<ToolStep>)
    ensures |steps| == |tools| && forall k | 0 <= k < |tools| :: steps[k] == RestoredStep(tools[k], wire)
  {
    if tools == [] then []
    else RestoredSteps(tools[..|tools| - 1], wire) + [RestoredStep(tools[|tools| - 1], wire)]
  }

  datatype Restored = Restored(turns: seq<RestoredTurn>, jobs: seq<Job>, rounds: seq<Round>, floor: nat)

  const RESTORED_DRAFT := "turns resumed from a recording written before every turn had a job"

  /** The summary is counted again; what the fold replaced is carried. */
  function RestoredJob(job: JobView, c: TokenCounter): Job {
    Job(job.id, job.objective, job.plan, job.state,
        match job.summary
        case Some(text) => Some(Summary(text, c.count(text), c.id, job.replaced))
        case None => None,
        job.closedBy, job.approvedBy)
  }

  function RestoredJobs(jobs: seq<JobView>, c: TokenCounter): (restored: seq<Job>)
    ensures |restored| == |jobs|
    ensures forall i | 0 <= i < |jobs| :: restored[i] == RestoredJob(jobs[i], c)
  {
    if jobs == [] then [] else RestoredJobs(jobs[..|jobs| - 1], c) + [RestoredJob(jobs[|jobs| - 1], c)]
  }

  function MaxId(jobs: seq<Job>): (id: JobId)
    ensures forall i | 0 <= i < |jobs| :: jobs[i].id <= id
  {
    if jobs == [] then 0
    else
      var rest, last := MaxId(jobs[..|jobs| - 1]), jobs[|jobs| - 1].id;
      if last > rest then last else rest
  }

  predicate AnyUnattributed(turns: seq<TurnView>) {
    exists i | 0 <= i < |turns| :: turns[i].job.None?
  }

  function RestoredTurns(turns: seq<TurnView>, draft: JobId, wire: Wire): (restored: seq<RestoredTurn>)
    ensures |restored| == |turns|
    ensures forall i | 0 <= i < |turns| ::
      restored[i] == RestoredTurn(turns[i].turn, turns[i].job.GetOr(draft), turns[i].prompt,
                                  RestoredSteps(turns[i].tools, wire))
  {
    if turns == [] then []
    else
      var last := turns[|turns| - 1];
      RestoredTurns(turns[..|turns| - 1], draft, wire)
      + [RestoredTurn(last.turn, last.job.GetOr(draft), last.prompt, RestoredSteps(last.tools, wire))]
  }

  function LeadingEvicted(turns: seq<TurnView>): (n: nat)
    ensures n <= |turns|
    ensures forall i | 0 <= i < n :: turns[i].evictedBy.Some?
    ensures n < |turns| ==> turns[n].evictedBy.None?
  {
    if turns == [] || turns[0].evictedBy.None? then 0 else 1 + LeadingEvicted(turns[1..])
  }

  /** Turns that name no job share one draft, in front of every other job. */
  function FromView(v: View, c: TokenCounter, wire: Wire): Restored {
    var jobs := RestoredJobs(v.jobs, c);
    var draft := MaxId(jobs) + 1;
    Restored(RestoredTurns(v.turns, draft, wire),
             if AnyUnattributed(v.turns) then [Draft(draft, RESTORED_DRAFT)] + jobs else jobs,
             v.rounds, LeadingEvicted(v.turns))
  }

  // ------------------------------------------------------------------------------ in place, as kept

  class Session {
    var turns: seq<TurnView>
    var jobs: seq<JobView>
    var rounds: seq<Round>

    function Contents(): View
      reads this
    {
      View(turns, jobs, rounds)
    }

    constructor ()
      ensures Contents() == View([], [], [])
    {
      turns, jobs, rounds := [], [], [];
    }

    method FindTurn(id: TurnId) returns (found: nat)
      ensures found == TurnAt(turns, id)
    {
      found := 0;
      while found < |turns| && turns[found].turn != id
        invariant found <= |turns| && TurnAt(turns, id) == found + TurnAt(turns[found..], id)
      {
        assert turns[found..][1..] == turns[found + 1..];
        found := found + 1;
      }
    }

    method FindJobView(id: JobId) returns (found: nat)
      ensures found == JobAt(jobs, id)
    {
      found := 0;
      while found < |jobs| && jobs[found].id != id
        invariant found <= |jobs| && JobAt(jobs, id) == found + JobAt(jobs[found..], id)
      {
        assert jobs[found..][1..] == jobs[found + 1..];
        found := found + 1;
      }
    }

    /** An answer names no round, and goes to the last one still open. */
    method AnswerRound(answer: Answer)
      modifies this`rounds
      ensures rounds == Answered(old(rounds), answer)
    {
      var i := |rounds|;
      while i > 0 && rounds[i - 1].answer.Some?
        invariant 0 <= i <= |rounds|
        invariant forall k | i <= k < |rounds| :: rounds[k].answer.Some?
        decreases i
      {
        i := i - 1;
      }
      if i > 0 {
        rounds := rounds[i - 1 := rounds[i - 1].(answer := Some(answer))];
      }
    }

    method FindCall(tools: seq<CallView>, step: nat, index: Option<nat>) returns (found: nat)
      ensures found == CallAt(tools, step, index)
    {
      found := 0;
      while found < |tools| && !(tools[found].step == step && tools[found].index.GetOr(1) == index.GetOr(1))
        invariant found <= |tools| && CallAt(tools, step, index) == found + CallAt(tools[found..], step, index)
      {
        assert tools[found..][1..] == tools[found + 1..];
        found := found + 1;
      }
    }

    /** A call is entered once, under its step and its place in it. */
    method MakeCall(turn: TurnId, step: nat, index: Option<nat>, call: ToolCall)
      modifies this`turns
      ensures View(turns, jobs, rounds) == Applied(old(Contents()), CallMade(turn, step, index, call))
    {
      hide TurnAt, CallAt;
      var i := FindTurn(turn);
      if i < |turns| {
        var k := FindCall(turns[i].tools, step, index);
        if k == |turns[i].tools| {
          turns := turns[i := turns[i].(tools := turns[i].tools + [CallView(step, index, call, None, None, "", false, None, None)])];
        } else {
          assert turns[i := turns[i].(tools := turns[i].tools)] == turns;
        }
      }
    }

    method AnswerCall(turn: TurnId, step: nat, index: Option<nat>, outcome: ToolOutcome,
                      asked: Option<bool>, grant: Option<GrantScope>)
      modifies this`turns
      ensures View(turns, jobs, rounds) == Applied(old(Contents()), CallAnswered(turn, step, index, outcome, asked, grant))
    {
      hide TurnAt, CallAt;
      var i := FindTurn(turn);
      if i < |turns| {
        var tools := turns[i].tools;
        var k := FindCall(tools, step, index);
        if k < |tools| {
          var answered := tools[k].(verdict := Some(outcome.verdict), error := outcome.error, output := outcome.output,
                                    truncated := outcome.truncated, asked := asked, grant := grant);
          turns := turns[i := turns[i].(tools := tools[k := answered])];
        } else {
          assert turns[i := turns[i].(tools := tools)] == turns;
        }
      }
    }

    method MarkEvicted(ids: seq<TurnId>, cutter: TurnId)
      modifies this`turns
      ensures turns == AllMarked(old(turns), ids, cutter)
    {
      var n := 0;
      while n < |ids|
        invariant n <= |ids| && turns == AllMarked(old(turns), ids[..n], cutter)
      {
        var i := FindTurn(ids[n]);
        if i < |turns| {
          turns := turns[i := turns[i].(evictedBy := Some(cutter))];
        }
        assert ids[..n + 1][..n] == ids[..n];
        n := n + 1;
      }
      assert ids[..n] == ids;
    }

    /** Folds one message in. */
    method ApplyProtocol(m: ServerMessage)
      modifies this
      ensures Contents() == Applied(old(Contents()), m)
    {
      hide AllMarked, Answered, OnTheTable, TurnAt, JobAt, Called, CameBack;
      match m {
        case TurnStarted(turn, prompt, job) =>
          var i := FindTurn(turn);
          if i == |turns| {
            turns := turns + [TurnView(turn, job, prompt, [], None, None)];
          }
        case DraftOpened(job, turn, objective) =>
          var i := FindTurn(turn);
          if i < |turns| {
            turns := turns[i := turns[i].(job := Some(job))];
          }
          var j := FindJobView(job);
          if j == |jobs| {
            jobs := jobs + [DraftView(job, objective)];
          }
        case PlanProposed(objective, plan, source) =>
          rounds := rounds + [Round(objective, plan, source.GetOr(Prose), None)];
        case PlanDeclined =>
          AnswerRound(Declined);
        case Evicted(turn, dropped) =>
          var i := FindTurn(turn);
          if i < |turns| {
            turns := turns[i := turns[i].(dropped := Some(dropped))];
          }
          MarkEvicted(dropped, turn);
        case JobApproved(job, _, _, plan, approvedBy) =>
          var approver := approvedBy.GetOr(Operator);
          var i := FindJobView(job);
          if i < |jobs| {
            jobs := jobs[i := MovedAlong(jobs[i], plan, approver)];
          } else {
            jobs := jobs + [ApprovedView(rounds, m)];
          }
          AnswerRound(Approved(job));
        case JobClosed(job, summary, closer, replaced) =>
          var i := FindJobView(job);
          if i < |jobs| {
            jobs := jobs[i := jobs[i].(state := Closed, summary := Some(summary),
                                       closedBy := Some(closer.GetOr(ByUser)), replaced := replaced)];
          }
        case JobReopened(job) =>
          var i := FindJobView(job);
          if i < |jobs| {
            jobs := jobs[i := jobs[i].(state := Open, summary := None, closedBy := None, replaced := None)];
          }
        case CallMade(turn, step, index, call) =>
          MakeCall(turn, step, index, call);
        case CallAnswered(turn, step, index, outcome, asked, grant) =>
          AnswerCall(turn, step, index, outcome, asked, grant);
      }
    }

    /** What a resume rebuilds: jobs first, then turns, the draft of those that name no job
        made with the first of them. */
    method Resume(c: TokenCounter, wire: Wire) returns (restored: Restored)
      ensures restored == FromView(Contents(), c, wire)
    {
      hide MaxId, LeadingEvicted, RestoredJobs, RestoredTurns, AnyUnattributed;
      var kept := ResumeJobs(c);
      var asked, found := ResumeTurns(kept, wire);
      var floor := CountEvicted();
      restored := Restored(asked, found, rounds, floor);
    }

    method ResumeJobs(c: TokenCounter) returns (found: seq<Job>)
      ensures found == RestoredJobs(jobs, c)
    {
      found := [];
      for i := 0 to |jobs|
        invariant found == RestoredJobs(jobs[..i], c)
      {
        assert jobs[..i + 1][..i] == jobs[..i];
        found := found + [RestoredJob(jobs[i], c)];
      }
      assert jobs[..|jobs|] == jobs;
    }

    method ResumeTurns(kept: seq<Job>, wire: Wire) returns (asked: seq<RestoredTurn>, found: seq<Job>)
      ensures asked == RestoredTurns(turns, MaxId(kept) + 1, wire)
      ensures found == if AnyUnattributed(turns) then [Draft(MaxId(kept) + 1, RESTORED_DRAFT)] + kept else kept
    {
      hide MaxId, AnyUnattributed, RestoredSteps;
      found := kept;
      var draft: Option<JobId> := None;
      asked := [];
      NoneUnattributed();
      for i := 0 to |turns|
        invariant draft == if AnyUnattributed(turns[..i]) then Some(MaxId(kept) + 1) else None
        invariant found == if draft.Some? then [Draft(MaxId(kept) + 1, RESTORED_DRAFT)] + kept else kept
        invariant asked == RestoredTurns(turns[..i], MaxId(kept) + 1, wire)
      {
        assert turns[..i + 1][..i] == turns[..i];
        MoreUnattributed(turns[..i + 1]);
        if turns[i].job.None? && draft.None? {
          var id := NextId(found);
          found := [Draft(id, RESTORED_DRAFT)] + found;
          draft := Some(id);
        }
        var job := if turns[i].job.Some? then turns[i].job.value else draft.value;
        var steps := ResumeSteps(turns[i].tools, wire);
        asked := asked + [RestoredTurn(turns[i].turn, job, turns[i].prompt, steps)];
      }
      assert turns[..|turns|] == turns;
    }

    method ResumeSteps(tools: seq<CallView>, wire: Wire) returns (steps: seq<ToolStep>)
      ensures steps == RestoredSteps(tools, wire)
    {
      steps := [];
      for k := 0 to |tools|
        invariant steps == RestoredSteps(tools[..k], wire)
      {
        assert tools[..k + 1][..k] == tools[..k];
        steps := steps + [RestoredStep(tools[k], wire)];
      }
      assert tools[..|tools|] == tools;
    }

    method CountEvicted() returns (floor: nat)
      ensures floor == LeadingEvicted(turns)
    {
      floor := 0;
      while floor < |turns| && turns[floor].evictedBy.Some?
        invariant floor <= |turns| && LeadingEvicted(turns) == floor + LeadingEvicted(turns[floor..])
      {
        assert turns[floor..][1..] == turns[floor + 1..];
        floor := floor + 1;
      }
    }
  }

  method NextId(jobs: seq<Job>) returns (id: JobId)
    ensures id == MaxId(jobs) + 1
  {
    id := 0;
    for i := 0 to |jobs|
      invariant id == MaxId(jobs[..i])
    {
      assert jobs[..i + 1][..i] == jobs[..i];
      id := if jobs[i].id > id then jobs[i].id else id;
    }
    assert jobs[..|jobs|] == jobs;
    id := id + 1;
  }

  lemma NoneUnattributed()
    ensures !AnyUnattributed([])
  {
  }

  lemma MoreUnattributed(turns: seq<TurnView>)
    requires turns != []
    ensures AnyUnattributed(turns) <==> AnyUnattributed(turns[..|turns| - 1]) || turns[|turns| - 1].job.None?
  {
    var front := turns[..|turns| - 1];
    if i :| 0 <= i < |front| && front[i].job.None? {
      assert turns[i].job.None?;
    }
    if i :| 0 <= i < |turns| && turns[i].job.None? && i < |front| {
      assert front[i].job.None?;
    }
  }
}
