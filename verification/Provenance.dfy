/** Where a job of the fold came from: the plan and the source a reader sees beside it are
    those of the round that was answered with it. And what streams written before a field
    existed are taken to have meant. */
module Provenance {
  import opened Conversation
  import opened Jobs
  import opened Lifecycle
  import opened SessionView
  import opened StepFold
  import opened Resume

  /** A draft was proposed by nobody; a planned job by the round answered with it. */
  ghost predicate FromItsRound(job: JobView, rounds: seq<Round>) {
    if job.plan.None? then job.proposed.None? && job.source.None?
    else
      exists i | 0 <= i < |rounds| ::
        && rounds[i].answer == Some(Approved(job.id)) && rounds[i].objective == job.objective
        && job.proposed == Some(rounds[i].plan) && job.source == Some(rounds[i].source)
  }

  ghost predicate AllFromTheirRounds(v: View) {
    forall j | 0 <= j < |v.jobs| :: FromItsRound(v.jobs[j], v.rounds)
  }

  /** A round that was answered stays as it was answered. */
  predicate AnswersStay(before: seq<Round>, after: seq<Round>) {
    |before| <= |after| && forall i | 0 <= i < |before| && before[i].answer.Some? :: after[i] == before[i]
  }

  lemma AnsweringKeepsAnswers(rounds: seq<Round>, answer: Answer)
    ensures AnswersStay(rounds, Answered(rounds, answer))
  {
    hide OnTheTable;
  }

  lemma StillFromItsRound(job: JobView, before: seq<Round>, after: seq<Round>)
    requires FromItsRound(job, before) && AnswersStay(before, after)
    ensures FromItsRound(job, after)
  {
    if job.plan.Some? {
      var i :| 0 <= i < |before|
        && before[i].answer == Some(Approved(job.id)) && before[i].objective == job.objective
        && job.proposed == Some(before[i].plan) && job.source == Some(before[i].source);
      assert after[i] == before[i];
    }
  }

  /** An approval the fold has a round for, and no job of that id yet. */
  predicate OnTheLastRound(v: View, m: ServerMessage) {
    m.JobApproved? ==>
      && JobAt(v.jobs, m.job) == |v.jobs| && v.rounds != []
      && v.rounds[|v.rounds| - 1].answer.None? && v.rounds[|v.rounds| - 1].objective == m.objective
  }

  lemma OneMessageKeepsOrigins(v: View, m: ServerMessage)
    requires AllFromTheirRounds(v) && OnTheLastRound(v, m)
    ensures AllFromTheirRounds(Applied(v, m))
  {
    hide OnTheTable, JobAt, TurnAt, AllMarked, FromItsRound, CallAt;
    match m
    case JobApproved(job, _, _, _, _) =>
      AnsweringKeepsAnswers(v.rounds, Approved(job));
      forall j | 0 <= j < |v.jobs| ensures FromItsRound(v.jobs[j], Applied(v, m).rounds) {
        StillFromItsRound(v.jobs[j], v.rounds, Applied(v, m).rounds);
      }
      OpensFromItsRound(v.rounds, m);
    case PlanProposed(objective, plan, source) =>
      forall j | 0 <= j < |v.jobs| ensures FromItsRound(v.jobs[j], Applied(v, m).rounds) {
        StillFromItsRound(v.jobs[j], v.rounds, Applied(v, m).rounds);
      }
    case PlanDeclined =>
      AnsweringKeepsAnswers(v.rounds, Declined);
      forall j | 0 <= j < |v.jobs| ensures FromItsRound(v.jobs[j], Applied(v, m).rounds) {
        StillFromItsRound(v.jobs[j], v.rounds, Applied(v, m).rounds);
      }
    case DraftOpened(job, _, objective) =>
      DraftFromNobody(job, objective, v.rounds);
    case JobClosed(job, _, _, _) =>
      SameOrigin(v, m, JobAt(v.jobs, job));
    case JobReopened(job) =>
      SameOrigin(v, m, JobAt(v.jobs, job));
    case _ =>
  }

  lemma SameOrigin(v: View, m: ServerMessage, i: nat)
    requires m.JobClosed? || m.JobReopened?
    requires i == JobAt(v.jobs, m.job) && AllFromTheirRounds(v)
    ensures AllFromTheirRounds(Applied(v, m))
  {
    hide JobAt;
    assert i < |v.jobs| ==> FromItsRound(v.jobs[i], v.rounds);
  }

  lemma DraftFromNobody(id: JobId, objective: string, rounds: seq<Round>)
    ensures FromItsRound(DraftView(id, objective), rounds)
  {
  }

  lemma OpensFromItsRound(rounds: seq<Round>, m: ServerMessage)
    requires m.JobApproved? && rounds != []
    requires rounds[|rounds| - 1].answer.None? && rounds[|rounds| - 1].objective == m.objective
    ensures FromItsRound(ApprovedView(rounds, m), Answered(rounds, Approved(m.job)))
  {
    var last := |rounds| - 1;
    assert OnTheTable(rounds) == last;
    var after := Answered(rounds, Approved(m.job));
    assert after[last].answer == Some(Approved(m.job)) && after[last].plan == rounds[last].plan
        && after[last].source == rounds[last].source && after[last].objective == rounds[last].objective;
  }

  predicate NoApproval(messages: seq<ServerMessage>) {
    forall i | 0 <= i < |messages| :: !messages[i].JobApproved?
  }

  lemma {:induction false} OthersKeepOrigins(v: View, messages: seq<ServerMessage>)
    requires AllFromTheirRounds(v) && NoApproval(messages)
    ensures AllFromTheirRounds(AppliedAll(v, messages))
  {
    hide Applied, AllFromTheirRounds;
    if messages != [] {
      var front, last := messages[..|messages| - 1], messages[|messages| - 1];
      OthersKeepOrigins(v, front);
      OneMessageKeepsOrigins(AppliedAll(v, front), last);
    }
  }

  lemma {:induction false} CallsApproveNothing(turn: TurnId, steps: seq<ToolStep>, n: nat)
    requires n <= |steps|
    ensures NoApproval(Told(turn, steps, n))
  {
    if n > 0 {
      CallsApproveNothing(turn, steps, n - 1);
    }
  }

  lemma StepKeepsOrigins(s: Live, v: View, d: Deed)
    requires Mirrors(s, v) && Can(s, d) && AllFromTheirRounds(v)
    ensures AllFromTheirRounds(AppliedAll(v, Said(s, d)))
  {
    hide Mirrors, Sound, AllFromTheirRounds, AppliedAll, Applied, Told, ClosedMessage, Opened, Landed, CloseJob;
    MirrorsAreSound(s, v);
    match d
    case Asked(turn, cut, met) =>
      CallsApproveNothing(turn.id, turn.steps, |turn.steps|);
      QuietTurn(s, turn, cut, met);
      OthersKeepOrigins(v, Said(s, d));
    case Approval(amended, approver, fold) =>
      ApprovalKeepsOrigins(s, v, amended, approver, fold);
    case _ =>
      QuietStep(s, d);
      OthersKeepOrigins(v, Said(s, d));
  }

  lemma QuietTurn(s: Live, turn: Turn, cut: nat, met: Option<Fold>)
    requires Sound(s) && Can(s, Asked(turn, cut, met)) && NoApproval(Told(turn.id, turn.steps, |turn.steps|))
    ensures NoApproval(Said(s, Asked(turn, cut, met)))
  {
    hide Told, Sound, Did;
  }

  lemma QuietStep(s: Live, d: Deed)
    requires Sound(s) && Can(s, d) && !d.Asked? && !d.Approval?
    ensures NoApproval(Said(s, d))
  {
    hide Sound, Did;
  }

  lemma ApprovalKeepsOrigins(s: Live, v: View, amended: Plan, approver: ApprovedBy, fold: Fold)
    requires Mirrors(s, v) && Can(s, Approval(amended, approver, fold)) && AllFromTheirRounds(v)
    ensures AllFromTheirRounds(AppliedAll(v, Said(s, Approval(amended, approver, fold))))
  {
    hide AllFromTheirRounds, AppliedAll, Applied, JobAt, ShowsTurns, Settled, Distinct, Sound, Did;
    var d, jobs, draft := Approval(amended, approver, fold), s.ledger.jobs, CurrentJob(s.ledger.jobs);
    var after := Did(s, d).ledger.jobs;
    var first := if draft.Some? then [ClosedMessage(after, draft.value, fold.text, ByApproval)] else [];
    var m := JobApproved(|jobs| + 1, draft, s.pending.value.objective, amended, Some(approver));
    assert Said(s, d) == first + [m];
    AppliedAllAppend(v, first, [m]);
    OthersKeepOrigins(v, first);
    var u := AppliedAll(v, first);
    AppliedOne(u, m);
    CloseChangesNoIds(v, first);
    assert Numbered(jobs) by { SoundIsNumbered(s); }
    ViewAt(v.jobs, jobs, |jobs| + 1);
    NoNewIds(v.jobs, u.jobs, |jobs| + 1);
    OneMessageKeepsOrigins(u, m);
  }

  lemma MirrorsAreSound(s: Live, v: View)
    requires Mirrors(s, v)
    ensures Sound(s)
  {
  }

  lemma SoundIsNumbered(s: Live)
    requires Sound(s)
    ensures Numbered(s.ledger.jobs)
  {
  }

  predicate SameIds(a: seq<JobView>, b: seq<JobView>) {
    |a| == |b| && forall i | 0 <= i < |a| :: a[i].id == b[i].id
  }

  lemma CloseChangesNoIds(v: View, messages: seq<ServerMessage>)
    requires messages == [] || (|messages| == 1 && messages[0].JobClosed?)
    ensures SameIds(v.jobs, AppliedAll(v, messages).jobs) && AppliedAll(v, messages).rounds == v.rounds
  {
    hide JobAt;
    if messages != [] {
      AppliedOne(v, messages[0]);
      assert messages == [messages[0]];
    }
  }

  lemma NoNewIds(a: seq<JobView>, b: seq<JobView>, id: JobId)
    requires SameIds(a, b) && JobAt(a, id) == |a|
    ensures JobAt(b, id) == |b|
  {
    assert forall k | 0 <= k < |b| :: b[k].id == a[k].id && a[k].id != id;
  }

  /** After any run, the plan and the source beside each job of the fold are those of the
      round that opened it, as it was put on the table; and a draft has neither. */
  lemma {:induction false} EveryJobIsFromItsRound(run: seq<Deed>)
    requires Legal(run)
    ensures AllFromTheirRounds(AppliedAll(NOTHING, Heard(run)))
  {
    hide AllFromTheirRounds, Said, AppliedAll, Mirrors;
    if run == [] {
      NothingYet();
    } else {
      var front, d := run[..|run| - 1], run[|run| - 1];
      EveryJobIsFromItsRound(front);
      AnnouncementsMirror(front);
      StepKeepsOrigins(Played(front), AppliedAll(NOTHING, Heard(front)), d);
      AppliedAllAppend(NOTHING, Heard(front), Said(Played(front), d));
    }
  }

  lemma NothingYet()
    ensures AllFromTheirRounds(AppliedAll(NOTHING, []))
  {
  }

  // ---------------------------------------------------------------------- what streams leave out

  /** A plan that names no source was prose; an approval that names nobody was the
      operator's; a close that names nobody was the user's. */
  lemma WhatUnsaidMeant(v: View, objective: string, plan: Plan, job: JobId, from: Option<JobId>, summary: string,
                        replaced: Option<Replaced>)
    ensures Applied(v, PlanProposed(objective, plan, None)).rounds == v.rounds + [Round(objective, plan, Prose, None)]
    ensures var i := JobAt(v.jobs, job);
      var approved := Applied(v, JobApproved(job, from, objective, plan, None)).jobs;
      i < |approved| && approved[i].id == job && approved[i].approvedBy == Some(Operator) && approved[i].state == Open
    ensures var i := JobAt(v.jobs, job);
      var closed := Applied(v, JobClosed(job, summary, None, replaced)).jobs;
      i < |v.jobs| ==> i < |closed| && closed[i].closedBy == Some(ByUser) && closed[i].replaced == replaced
  {
  }

  /** Before jobs alternated a proposal was a job already: the approval opens that one, and
      an empty plan leaves it the plan it had. */
  lemma OldProposalsAreOpened(v: View, m: ServerMessage)
    requires m.JobApproved? && JobAt(v.jobs, m.job) < |v.jobs|
    ensures var i := JobAt(v.jobs, m.job);
      var was := v.jobs[i];
      Applied(v, m).jobs
      == v.jobs[i := JobView(was.id, was.objective, if m.plan == Plan([], [], [], [], None) then was.plan else Some(m.plan),
                             was.proposed, was.source, Open, was.summary, was.closedBy,
                             Some(m.approvedBy.GetOr(Operator)), was.replaced)]
  {
  }

  /** Turns that name no job are put in one draft of their own, under an id no other job has,
      in front of every other; and where every turn names one there is no such draft. */
  lemma UnattributedTurnsShareADraft(v: View, c: TokenCounter, wire: Wire)
    ensures var r := FromView(v, c, wire);
      && |r.turns| == |v.turns|
      && (forall i | 0 <= i < |v.turns| && v.turns[i].job.Some? :: r.turns[i].job == v.turns[i].job.value)
      && if forall i | 0 <= i < |v.turns| :: v.turns[i].job.Some? then |r.jobs| == |v.jobs|
         else
           && |r.jobs| == |v.jobs| + 1 && r.jobs[0].IsDraft() && r.jobs[0].IsOpen()
           && r.jobs[0].objective == "turns resumed from a recording written before every turn had a job"
           && (forall j | 0 <= j < |v.jobs| :: v.jobs[j].id != r.jobs[0].id && r.jobs[j + 1].id == v.jobs[j].id)
           && (forall i | 0 <= i < |v.turns| && v.turns[i].job.None? :: r.turns[i].job == r.jobs[0].id)
  {
    hide MaxId, RestoredSteps, LeadingEvicted;
    hide RestoredJobs, RestoredTurns;
    var jobs, r := RestoredJobs(v.jobs, c), FromView(v, c, wire);
    var draft := MaxId(jobs) + 1;
    assert r.turns == RestoredTurns(v.turns, draft, wire);
    forall j | 0 <= j < |v.jobs| ensures jobs[j].id == v.jobs[j].id < draft {}
    if !(forall i | 0 <= i < |v.turns| :: v.turns[i].job.Some?) {
      assert r.jobs == [Draft(draft, RESTORED_DRAFT)] + jobs;
      forall j | 0 <= j < |v.jobs| ensures r.jobs[j + 1] == jobs[j] {}
    }
  }

  /** A call that never came back resumes as one that was let through and said nothing. */
  lemma UnansweredCallsResume(step: nat, index: Option<nat>, call: ToolCall, wire: Wire)
    ensures Called([], step, index, call) != []
    ensures RestoredStep(Called([], step, index, call)[0], wire)
         == ToolStep("```tool\n" + wire.json(call) + "\n```", call, index.GetOr(1),
                     ToolOutcome(Verdict(true, "resumed"), "", None, false), None, None)
  {
  }

  /** A turn, a draft or a call announced again changes nothing. */
  lemma SaidTwice(v: View, m: ServerMessage)
    requires m.TurnStarted? || m.DraftOpened? || m.CallMade?
    ensures Applied(Applied(v, m), m) == Applied(v, m)
  {
    hide AllMarked, OnTheTable;
    match m
    case TurnStarted(turn, prompt, job) =>
      if TurnAt(v.turns, turn) == |v.turns| {
        FirstOfItsId(v.turns, TurnView(turn, job, prompt, [], None, None));
      }
    case DraftOpened(job, turn, objective) =>
      assert Attributed(Attributed(v.turns, turn, job), turn, job) == Attributed(v.turns, turn, job) by {
        StillThere(v.turns, turn, Attributed(v.turns, turn, job));
      }
      JobOfItsId(v.jobs, DraftView(job, objective));
    case CallMade(turn, step, index, call) =>
      var i := TurnAt(v.turns, turn);
      if i < |v.turns| {
        StillThere(v.turns, turn, Applied(v, m).turns);
        CallOfItsPlace(v.turns[i].tools, CallView(step, index, call, None, None, "", false, None, None));
      }
  }

  lemma {:induction false} FirstOfItsId(turns: seq<TurnView>, view: TurnView)
    requires TurnAt(turns, view.turn) == |turns|
    ensures TurnAt(turns + [view], view.turn) == |turns|
  {
    assert (turns + [view])[|turns|].turn == view.turn;
    assert forall k | 0 <= k < |turns| :: (turns + [view])[k] == turns[k];
  }

  lemma StillThere(turns: seq<TurnView>, id: TurnId, after: seq<TurnView>)
    requires |after| == |turns| && forall k | 0 <= k < |turns| :: after[k].turn == turns[k].turn
    ensures TurnAt(after, id) == TurnAt(turns, id)
  {
    var i, j := TurnAt(turns, id), TurnAt(after, id);
    assert i < |turns| ==> after[i].turn == id;
    assert j < |turns| ==> turns[j].turn == id;
  }

  lemma JobOfItsId(jobs: seq<JobView>, view: JobView)
    ensures JobAt(jobs, view.id) == |jobs| ==> JobAt(jobs + [view], view.id) == |jobs|
  {
    var i := JobAt(jobs + [view], view.id);
    assert (jobs + [view])[|jobs|].id == view.id;
    assert i < |jobs| ==> (jobs + [view])[i] == jobs[i];
  }

  lemma CallOfItsPlace(tools: seq<CallView>, view: CallView)
    ensures CallAt(tools, view.step, view.index) == |tools| ==> CallAt(tools + [view], view.step, view.index) == |tools|
  {
    var i := CallAt(tools + [view], view.step, view.index);
    assert (tools + [view])[|tools|] == view;
    assert i < |tools| ==> (tools + [view])[i] == tools[i];
  }
}
