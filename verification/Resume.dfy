/** A live session announced as it goes, and why a resume from what was announced rebuilds
    the session: the fold of the messages mirrors the session after every run. */
module Resume {
  import opened Conversation
  import opened Jobs
  import opened Lifecycle
  import opened SessionView
  import opened StepFold

  /** A plan on the table, waiting for a person. */
  datatype Pending = Pending(objective: string, plan: Plan, source: PlanSource)

  datatype Live = Live(ledger: Ledger, floor: nat, pending: Option<Pending>)

  /** What a close writes: its wording, the counter in force, and what it replaced. */
  datatype Fold = Fold(text: string, counter: TokenCounter, replaced: Replaced)

  datatype Deed =
    | Asked(turn: Turn, cut: nat, met: Option<Fold>)   // a turn, from its selection to its push
    | Proposed(objective: string, plan: Plan, source: PlanSource)
    | Approval(amended: Plan, approver: ApprovedBy, fold: Fold)
    | Refusal
    | Close(job: JobId, fold: Fold)
    | Reopening(job: JobId)

  // ------------------------------------------------------------------------------ what happens

  /** Only a plan has a closing condition; a draft never went through the gate. */
  predicate MayBeMet(jobs: seq<Job>, id: JobId) {
    var job := FindJob(jobs, id);
    job.Some? && !job.value.IsDraft()
  }

  ghost predicate Can(s: Live, d: Deed) {
    match d
    case Asked(turn, cut, met) =>
      && (forall i | 0 <= i < |s.ledger.turns| :: s.ledger.turns[i].id != turn.id)
      && turn.job == LandingJob(s.ledger.jobs) && InReplyOrder(turn.steps)
      && s.floor <= cut <= |s.ledger.turns|
      && (met.Some? ==> MayBeMet(Landed(s.ledger.jobs, turn.prompt), turn.job))
    case Proposed(_, _, _) => s.pending.None?
    case Approval(_, _, _) => s.pending.Some?
    case Refusal => s.pending.Some?
    case Close(_, _) => true
    case Reopening(_) => true
  }

  function ClosedWith(jobs: seq<Job>, id: JobId, fold: Fold, closer: ClosedBy): seq<Job>
    requires Numbered(jobs)
  {
    CloseJob(jobs, id, fold.text, fold.counter, closer, fold.replaced)
  }

  /** The jobs once the current one, if there is one, has been folded. */
  function CurrentClosed(jobs: seq<Job>, fold: Fold, closer: ClosedBy): seq<Job>
    requires Numbered(jobs)
  {
    match CurrentJob(jobs)
    case Some(id) => ClosedWith(jobs, id, fold, closer)
    case None => jobs
  }

  ghost predicate Sound(s: Live) {
    Alternates(s.ledger) && s.floor <= |s.ledger.turns|
  }

  lemma LandedNumbered(jobs: seq<Job>, prompt: string)
    requires Numbered(jobs)
    ensures Numbered(Landed(jobs, prompt))
  {
  }

  ghost function Did(s: Live, d: Deed): Live
    requires Sound(s) && Can(s, d)
  {
    match d
    case Asked(turn, cut, met) =>
      var pushed := Push(s.ledger, turn);
      LandedNumbered(s.ledger.jobs, turn.prompt);
      Live(if met.Some? then pushed.(jobs := CurrentClosed(pushed.jobs, met.value, ByExitCode)) else pushed,
           cut, s.pending)
    case Proposed(objective, plan, source) =>
      s.(pending := Some(Pending(objective, plan, source)))
    case Approval(amended, approver, fold) =>
      var p := s.pending.value;
      var folded := s.ledger.(jobs := CurrentClosed(s.ledger.jobs, fold, ByApproval));
      Live(Approve(folded, p.objective, p.plan, amended, p.source, approver), s.floor, None)
    case Refusal =>
      var p := s.pending.value;
      var round := Round(p.objective, p.plan, p.source, Some(Declined));
      Live(s.ledger.(rounds := s.ledger.rounds + [round]), s.floor, None)
    case Close(job, fold) =>
      s.(ledger := s.ledger.(jobs := ClosedWith(s.ledger.jobs, job, fold, ByUser)))
    case Reopening(job) =>
      s.(ledger := s.ledger.(jobs := ReopenJob(s.ledger.jobs, job)))
  }

  // --------------------------------------------------------------------------- what is announced

  function IdsBetween(turns: seq<Turn>, before: nat, after: nat): (ids: seq<TurnId>)
    requires before <= after <= |turns|
    ensures |ids| == after - before
    ensures forall k | 0 <= k < |ids| :: ids[k] == turns[before + k].id
  {
    if before == after then [] else IdsBetween(turns, before, after - 1) + [turns[after - 1].id]
  }

  /** The announcement of a close, with what the closed job itself now says it replaced. */
  function ClosedMessage(jobs: seq<Job>, id: JobId, text: string, closer: ClosedBy): ServerMessage {
    var job := FindJob(jobs, id);
    JobClosed(id, text, Some(closer),
              if job.Some? && job.value.summary.Some? then job.value.summary.value.replaced else None)
  }

  function Opened(before: Option<JobId>, jobs: seq<Job>, turn: TurnId): seq<ServerMessage> {
    match CurrentJob(jobs)
    case Some(id) =>
      var job := FindJob(jobs, id);
      if before != Some(id) && job.Some? && job.value.IsDraft() then [DraftOpened(id, turn, job.value.objective)] else []
    case None => []
  }

  ghost function Said(s: Live, d: Deed): seq<ServerMessage>
    requires Sound(s) && Can(s, d)
  {
    var jobs, after := s.ledger.jobs, Did(s, d).ledger.jobs;
    match d
    case Asked(turn, cut, met) =>
      [TurnStarted(turn.id, turn.prompt, CurrentJob(jobs))]
      + (if s.floor < cut then [Evicted(turn.id, IdsBetween(s.ledger.turns, s.floor, cut))] else [])
      + Told(turn.id, turn.steps, |turn.steps|)
      + Opened(CurrentJob(jobs), after, turn.id)
      + (if met.Some? then [ClosedMessage(after, turn.job, met.value.text, ByExitCode)] else [])
    case Proposed(objective, plan, source) =>
      [PlanProposed(objective, plan, Some(source))]
    case Approval(amended, approver, fold) =>
      var draft := CurrentJob(jobs);
      (if draft.Some? then [ClosedMessage(after, draft.value, fold.text, ByApproval)] else [])
      + [JobApproved(|jobs| + 1, draft, s.pending.value.objective, amended, Some(approver))]
    case Refusal =>
      [PlanDeclined]
    case Close(job, fold) =>
      if Closable(jobs, job) then [ClosedMessage(after, job, fold.text, ByUser)] else []
    case Reopening(job) =>
      if Reopenable(jobs, job) then [JobReopened(job)] else []
  }

  const START := Live(Ledger([], [], []), 0, None)

  ghost predicate Legal(run: seq<Deed>)
    decreases |run|, 0
  {
    run == [] || (var front := run[..|run| - 1];
                  Legal(front) && Sound(Played(front)) && Can(Played(front), run[|run| - 1]))
  }

  ghost function Played(run: seq<Deed>): Live
    requires Legal(run)
    decreases |run|, 1
  {
    if run == [] then START else Did(Played(run[..|run| - 1]), run[|run| - 1])
  }

  ghost function Heard(run: seq<Deed>): seq<ServerMessage>
    requires Legal(run)
  {
    if run == [] then []
    else Heard(run[..|run| - 1]) + Said(Played(run[..|run| - 1]), run[|run| - 1])
  }

  // ---------------------------------------------------------------------------------- the mirror

  predicate ShowsTurn(v: TurnView, turn: Turn, gone: bool) {
    && v.turn == turn.id && v.prompt == turn.prompt && v.job == Some(turn.job) && (v.evictedBy.Some? <==> gone)
    && InReplyOrder(turn.steps) && v.tools == CallViews(turn.steps, |turn.steps|)
  }

  predicate ShowsJob(v: JobView, job: Job) {
    && v.id == job.id && v.objective == job.objective && v.plan == job.plan && v.state == job.state
    && v.closedBy == job.closedBy && v.approvedBy == job.approvedBy
    && (v.summary.Some? <==> job.summary.Some?)
    && (v.summary.Some? ==> v.summary.value == job.summary.value.text && v.replaced == job.summary.value.replaced)
    && (v.summary.None? ==> v.replaced.None?)
  }

  predicate ShowsTurns(views: seq<TurnView>, turns: seq<Turn>, floor: nat) {
    |views| == |turns| && forall i | 0 <= i < |views| :: ShowsTurn(views[i], turns[i], i < floor)
  }

  predicate ShowsJobs(views: seq<JobView>, jobs: seq<Job>) {
    |views| == |jobs| && forall i | 0 <= i < |views| :: ShowsJob(views[i], jobs[i])
  }

  function Table(pending: Option<Pending>): seq<Round> {
    match pending
    case Some(p) => [Round(p.objective, p.plan, p.source, None)]
    case None => []
  }

  predicate Settled(rounds: seq<Round>) {
    forall i | 0 <= i < |rounds| :: rounds[i].answer.Some?
  }

  predicate Distinct(turns: seq<Turn>) {
    forall i, j | 0 <= i < j < |turns| :: turns[i].id != turns[j].id
  }

  ghost predicate Mirrors(s: Live, v: View) {
    && Sound(s) && Distinct(s.ledger.turns) && Settled(s.ledger.rounds)
    && ShowsTurns(v.turns, s.ledger.turns, s.floor)
    && ShowsJobs(v.jobs, s.ledger.jobs)
    && v.rounds == s.ledger.rounds + Table(s.pending)
  }

  // ------------------------------------------------------------------------- the parts of a step

  lemma {:induction false} MarkedPointwise(turns: seq<TurnView>, ids: seq<TurnId>, cutter: TurnId)
    requires forall i, j | 0 <= i < j < |turns| :: turns[i].turn != turns[j].turn
    ensures |AllMarked(turns, ids, cutter)| == |turns|
    ensures forall k | 0 <= k < |turns| ::
      AllMarked(turns, ids, cutter)[k] == if turns[k].turn in ids then turns[k].(evictedBy := Some(cutter)) else turns[k]
  {
    if ids != [] {
      var front, last := ids[..|ids| - 1], ids[|ids| - 1];
      MarkedPointwise(turns, front, cutter);
      assert ids == front + [last];
      var marked := AllMarked(turns, front, cutter);
      var i := TurnAt(marked, last);
      forall k | 0 <= k < |turns| ensures marked[k].turn == turns[k].turn {}
      forall k | 0 <= k < |turns| && turns[k].turn == last ensures k == i {
        assert marked[k].turn == last;
        assert marked[i].turn == last;
        assert turns[i].turn == last;
      }
    }
  }

  lemma ViewAt(views: seq<JobView>, jobs: seq<Job>, id: JobId)
    requires ShowsJobs(views, jobs) && Numbered(jobs)
    ensures JobAt(views, id) == if 1 <= id <= |jobs| then id - 1 else |jobs|
  {
    forall k | 0 <= k < |views| ensures views[k].id == k + 1 {
      assert ShowsJob(views[k], jobs[k]);
    }
    if 1 <= id <= |jobs| {
      assert views[id - 1].id == id;
    }
  }

  /** A close, whoever made it, is what its announcement says. */
  lemma CloseShows(v: View, jobs: seq<Job>, id: JobId, fold: Fold, closer: ClosedBy, after: seq<Job>)
    requires ShowsJobs(v.jobs, jobs) && Numbered(jobs) && Closable(jobs, id) && Numbered(after)
    requires ClosedWith(jobs, id, fold, closer) <= after
    ensures ShowsJobs(Applied(v, ClosedMessage(after, id, fold.text, closer)).jobs, ClosedWith(jobs, id, fold, closer))
    ensures Applied(v, ClosedMessage(after, id, fold.text, closer)) == v.(jobs := Applied(v, ClosedMessage(after, id, fold.text, closer)).jobs)
  {
    FindIsPosition(jobs, id);
    FindIsPosition(after, id);
    ViewAt(v.jobs, jobs, id);
    assert after[id - 1] == ClosedWith(jobs, id, fold, closer)[id - 1];
    assert ShowsJob(v.jobs[id - 1], jobs[id - 1]);
  }

  lemma ReopenShows(v: View, jobs: seq<Job>, id: JobId)
    requires ShowsJobs(v.jobs, jobs) && Numbered(jobs) && Reopenable(jobs, id)
    ensures ShowsJobs(Applied(v, JobReopened(id)).jobs, ReopenJob(jobs, id))
    ensures Applied(v, JobReopened(id)) == v.(jobs := Applied(v, JobReopened(id)).jobs)
  {
    ViewAt(v.jobs, jobs, id);
    assert ShowsJob(v.jobs[id - 1], jobs[id - 1]);
  }

  lemma TheTable(rounds: seq<Round>, pending: Pending)
    requires Settled(rounds)
    ensures OnTheTable(rounds + Table(Some(pending))) == |rounds|
  {
    var all := rounds + Table(Some(pending));
    assert all[|rounds|].answer.None?;
    forall k | 0 <= k < |rounds| ensures all[k].answer.Some? {
      assert rounds[k].answer.Some?;
    }
  }

  lemma AnswerShows(rounds: seq<Round>, p: Pending, answer: Answer)
    requires Settled(rounds)
    ensures Answered(rounds + Table(Some(p)), answer) == rounds + [Round(p.objective, p.plan, p.source, Some(answer))]
    ensures Settled(rounds + [Round(p.objective, p.plan, p.source, Some(answer))])
  {
    TheTable(rounds, p);
  }

  // ------------------------------------------------------------------------------ step by step

  lemma StepKeepsSound(s: Live, d: Deed)
    requires Sound(s) && Can(s, d)
    ensures Sound(Did(s, d))
  {
    match d
    case Asked(turn, cut, met) =>
      PushKeeps(s.ledger, turn);
      if met.Some? {
        CurrentCloseKeeps(Push(s.ledger, turn), met.value, ByExitCode);
      }
    case Approval(amended, approver, fold) =>
      var p := s.pending.value;
      CurrentCloseKeeps(s.ledger, fold, ByApproval);
      var folded := s.ledger.(jobs := CurrentClosed(s.ledger.jobs, fold, ByApproval));
      ApproveKeeps(folded, p.objective, p.plan, amended, p.source, approver);
    case Close(job, fold) =>
      CloseKeeps(s.ledger, job, fold.text, fold.counter, ByUser, fold.replaced);
    case Reopening(job) =>
      ReopenKeeps(s.ledger, job);
    case Proposed(_, _, _) =>
    case Refusal =>
  }

  lemma CurrentCloseKeeps(l: Ledger, fold: Fold, closer: ClosedBy)
    requires Alternates(l)
    ensures Alternates(l.(jobs := CurrentClosed(l.jobs, fold, closer)))
    ensures CurrentJob(CurrentClosed(l.jobs, fold, closer)).None?
    ensures CurrentJob(l.jobs).Some? ==> Closable(l.jobs, CurrentJob(l.jobs).value)
    ensures |CurrentClosed(l.jobs, fold, closer)| == |l.jobs|
  {
    CurrentIsTheLast(l.jobs);
    match CurrentJob(l.jobs)
    case Some(id) => CloseKeeps(l, id, fold.text, fold.counter, closer, fold.replaced);
    case None =>
  }

  /** A turn still in flight is seen under the job its start named, if it named one, and with
      the first `n` of its calls. */
  predicate ShowsAsked(views: seq<TurnView>, turns: seq<Turn>, floor: nat, turn: Turn, within: Option<JobId>, n: nat)
    requires n <= |turn.steps|
  {
    && |views| == |turns| + 1 && ShowsTurns(views[..|turns|], turns, floor)
    && var v := views[|turns|];
       v.turn == turn.id && v.prompt == turn.prompt && v.job == within && v.evictedBy.None?
       && v.tools == CallViews(turn.steps, n)
  }

  predicate New(turns: seq<Turn>, turn: Turn) {
    forall i | 0 <= i < |turns| :: turns[i].id != turn.id
  }

  lemma InFlight(views: seq<TurnView>, turns: seq<Turn>, floor: nat, turn: Turn, within: Option<JobId>, n: nat)
    requires n <= |turn.steps| && ShowsAsked(views, turns, floor, turn, within, n) && Distinct(turns) && New(turns, turn)
    ensures TurnAt(views, turn.id) == |turns|
    ensures forall i, j | 0 <= i < j < |views| :: views[i].turn != views[j].turn
  {
    hide CallViews, InReplyOrder;
    forall i | 0 <= i < |views| ensures views[i].turn == if i < |turns| then turns[i].id else turn.id {
      if i < |turns| {
        assert ShowsTurn(views[..|turns|][i], turns[i], i < floor);
      }
    }
    var k := TurnAt(views, turn.id);
    assert k < |views| ==> views[k].turn == turn.id;
    assert views[|turns|].turn == turn.id;
  }

  lemma StartedShows(v: View, turns: seq<Turn>, floor: nat, turn: Turn, within: Option<JobId>)
    requires ShowsTurns(v.turns, turns, floor) && Distinct(turns) && New(turns, turn)
    ensures var started := Applied(v, TurnStarted(turn.id, turn.prompt, within));
            started == v.(turns := started.turns) && ShowsAsked(started.turns, turns, floor, turn, within, 0)
  {
    forall i | 0 <= i < |v.turns| ensures v.turns[i].turn == turns[i].id {
      assert ShowsTurn(v.turns[i], turns[i], i < floor);
    }
    assert (v.turns + [TurnView(turn.id, within, turn.prompt, [], None, None)])[..|turns|] == v.turns;
  }

  /** A cut announced by the turn that made it moves exactly the floor. */
  lemma CutShows(v: View, turns: seq<Turn>, floor: nat, cut: nat, turn: Turn, within: Option<JobId>)
    requires ShowsAsked(v.turns, turns, floor, turn, within, 0) && Distinct(turns) && New(turns, turn)
    requires floor <= cut <= |turns|
    ensures var after := Applied(v, Evicted(turn.id, IdsBetween(turns, floor, cut)));
            && after == v.(turns := after.turns) && ShowsAsked(after.turns, turns, cut, turn, within, 0)
            && after.turns[|turns|].dropped == Some(IdsBetween(turns, floor, cut))
            && forall i | floor <= i < cut :: after.turns[i].evictedBy == Some(turn.id)
  {
    hide TurnAt, AllMarked, IdsBetween;
    var ids := IdsBetween(turns, floor, cut);
    InFlight(v.turns, turns, floor, turn, within, 0);
    var noted := Dropped(v.turns, turn.id, ids);
    MarkedPointwise(noted, ids, turn.id);
    var after := AllMarked(noted, ids, turn.id);
    forall i | 0 <= i < |turns| ensures ShowsTurn(after[..|turns|][i], turns[i], i < cut) {
      assert ShowsTurn(v.turns[..|turns|][i], turns[i], i < floor);
      WhoWasCut(turns, floor, cut, i);
    }
    CutterStays(turns, floor, cut, turn);
  }

  lemma WhoWasCut(turns: seq<Turn>, floor: nat, cut: nat, i: nat)
    requires Distinct(turns) && floor <= cut <= |turns| && i < |turns|
    ensures turns[i].id in IdsBetween(turns, floor, cut) <==> floor <= i < cut
  {
    var ids := IdsBetween(turns, floor, cut);
    if floor <= i < cut {
      assert ids[i - floor] == turns[i].id;
    }
    if turns[i].id in ids {
      var k :| 0 <= k < |ids| && ids[k] == turns[i].id;
      assert turns[floor + k].id == turns[i].id;
    }
  }

  lemma CutterStays(turns: seq<Turn>, floor: nat, cut: nat, turn: Turn)
    requires New(turns, turn) && floor <= cut <= |turns|
    ensures turn.id !in IdsBetween(turns, floor, cut)
  {
  }

  /** The calls of the turn, as they are announced, become its calls in the view. */
  lemma CallsShow(v: View, turns: seq<Turn>, floor: nat, turn: Turn, within: Option<JobId>)
    requires ShowsAsked(v.turns, turns, floor, turn, within, 0) && Distinct(turns) && New(turns, turn)
    requires InReplyOrder(turn.steps)
    ensures var after := AppliedAll(v, Told(turn.id, turn.steps, |turn.steps|));
            after == v.(turns := after.turns) && ShowsAsked(after.turns, turns, floor, turn, within, |turn.steps|)
  {
    hide TurnAt, AppliedAll;
    InFlight(v.turns, turns, floor, turn, within, 0);
    TellingShows(v, |turns|, turn.id, turn.steps, |turn.steps|);
    var after := WithTools(v, |turns|, CallViews(turn.steps, |turn.steps|));
    assert after.turns[..|turns|] == v.turns[..|turns|];
  }

  lemma PushedShows(views: seq<TurnView>, turns: seq<Turn>, floor: nat, turn: Turn)
    requires ShowsAsked(views, turns, floor, turn, Some(turn.job), |turn.steps|) && floor <= |turns|
    requires InReplyOrder(turn.steps)
    ensures ShowsTurns(views, turns + [turn], floor)
  {
    forall i | 0 <= i < |views| ensures ShowsTurn(views[i], (turns + [turn])[i], i < floor) {
      if i < |turns| {
        assert ShowsTurn(views[..|turns|][i], turns[i], i < floor);
      }
    }
  }

  /** The draft a turn opened gives the turn its job. */
  lemma DraftShows(v: View, l: Ledger, floor: nat, turn: Turn)
    requires ShowsAsked(v.turns, l.turns, floor, turn, None, |turn.steps|) && Distinct(l.turns) && New(l.turns, turn)
    requires InReplyOrder(turn.steps)
    requires floor <= |l.turns| && ShowsJobs(v.jobs, l.jobs) && Numbered(l.jobs)
    requires CurrentJob(l.jobs).None? && turn.job == LandingJob(l.jobs)
    ensures var after := Applied(v, DraftOpened(turn.job, turn.id, turn.prompt));
            && after.rounds == v.rounds && ShowsTurns(after.turns, l.turns + [turn], floor)
            && ShowsJobs(after.jobs, Landed(l.jobs, turn.prompt))
  {
    hide TurnAt, JobAt;
    InFlight(v.turns, l.turns, floor, turn, None, |turn.steps|);
    ViewAt(v.jobs, l.jobs, turn.job);
    var after := Applied(v, DraftOpened(turn.job, turn.id, turn.prompt));
    assert after.turns[..|l.turns|] == v.turns[..|l.turns|];
    PushedShows(after.turns, l.turns, floor, turn);
  }

  lemma StillDistinct(turns: seq<Turn>, turn: Turn)
    requires Distinct(turns) && New(turns, turn)
    ensures Distinct(turns + [turn])
  {
  }

  /** What a turn announces about drafts: the one it opened, if it opened one. */
  lemma WhatOpened(l: Ledger, turn: Turn)
    requires Alternates(l) && turn.job == LandingJob(l.jobs)
    ensures Opened(CurrentJob(l.jobs), Push(l, turn).jobs, turn.id)
         == if CurrentJob(l.jobs).None? then [DraftOpened(turn.job, turn.id, turn.prompt)] else []
    ensures CurrentJob(Push(l, turn).jobs) == Some(turn.job)
  {
    CurrentIsTheLast(l.jobs);
    PushKeeps(l, turn);
    FindIsPosition(Push(l, turn).jobs, turn.job);
  }

  ghost function Cut(s: Live, turn: Turn, cut: nat): seq<ServerMessage>
    requires s.floor <= cut <= |s.ledger.turns|
  {
    if s.floor < cut then [Evicted(turn.id, IdsBetween(s.ledger.turns, s.floor, cut))] else []
  }

  lemma AllTold(s: Live, v: View, turn: Turn, cut: nat)
    requires Sound(s) && Can(s, Asked(turn, cut, None))
    ensures AppliedAll(v, Said(s, Asked(turn, cut, None)))
         == AppliedAll(AppliedAll(AppliedAll(Applied(v, TurnStarted(turn.id, turn.prompt, CurrentJob(s.ledger.jobs))),
                                             Cut(s, turn, cut)),
                                  Told(turn.id, turn.steps, |turn.steps|)),
                       Opened(CurrentJob(s.ledger.jobs), Push(s.ledger, turn).jobs, turn.id))
  {
    hide NoEmptyDraft, InOrder, FoldsHaveSummaries, OnlyTheLastIsOpen, Applied, AppliedAll, Opened, Told;
    var first := [TurnStarted(turn.id, turn.prompt, CurrentJob(s.ledger.jobs))];
    var told, news := Told(turn.id, turn.steps, |turn.steps|),
      Opened(CurrentJob(s.ledger.jobs), Push(s.ledger, turn).jobs, turn.id);
    assert Said(s, Asked(turn, cut, None)) == first + Cut(s, turn, cut) + told + news;
    AppliedOne(v, first[0]);
    AppliedAllAppend(v, first, Cut(s, turn, cut));
    AppliedAllAppend(v, first + Cut(s, turn, cut), told);
    AppliedAllAppend(v, first + Cut(s, turn, cut) + told, news);
  }

  /** Everything up to the close the turn may have earned. */
  lemma AskedShows(s: Live, v: View, turn: Turn, cut: nat)
    requires Mirrors(s, v) && Can(s, Asked(turn, cut, None))
    ensures Mirrors(Did(s, Asked(turn, cut, None)), AppliedAll(v, Said(s, Asked(turn, cut, None))))
  {
    hide NoEmptyDraft, InOrder, FoldsHaveSummaries, OnlyTheLastIsOpen, Applied, TurnAt, ShowsAsked, ShowsTurns, ShowsJobs, Opened, Table;
    var l, within := s.ledger, CurrentJob(s.ledger.jobs);
    var started := TurnStarted(turn.id, turn.prompt, within);
    var v1 := Applied(v, started);
    StartedShows(v, l.turns, s.floor, turn, within);
    var v2 := AppliedAll(v1, Cut(s, turn, cut));
    if s.floor < cut {
      AppliedOne(v1, Evicted(turn.id, IdsBetween(l.turns, s.floor, cut)));
      CutShows(v1, l.turns, s.floor, cut, turn, within);
    }
    assert v2 == v.(turns := v2.turns) && ShowsAsked(v2.turns, l.turns, cut, turn, within, 0);
    var told := Told(turn.id, turn.steps, |turn.steps|);
    CallsShow(v2, l.turns, cut, turn, within);
    var v3 := AppliedAll(v2, told);
    WhatOpened(l, turn);
    var news := Opened(within, Push(l, turn).jobs, turn.id);
    var v4 := AppliedAll(v3, news);
    if within.None? {
      AppliedOne(v3, news[0]);
      DraftShows(v3, l, cut, turn);
    } else {
      PushedShows(v3.turns, l.turns, cut, turn);
    }
    AllTold(s, v, turn, cut);
    StillDistinct(l.turns, turn);
    StepKeepsSound(s, Asked(turn, cut, None));
  }

  /** A turn that met its job's closing condition is a turn, and then that job's close. */
  lemma MetShows(s: Live, v: View, turn: Turn, cut: nat, fold: Fold)
    requires Mirrors(s, v) && Can(s, Asked(turn, cut, Some(fold)))
    ensures Mirrors(Did(s, Asked(turn, cut, Some(fold))), AppliedAll(v, Said(s, Asked(turn, cut, Some(fold)))))
  {
    hide NoEmptyDraft, InOrder, FoldsHaveSummaries, OnlyTheLastIsOpen, Applied, AppliedAll, ShowsTurns, ShowsJobs, Table, ClosedMessage, CloseJob;
    var plain, d := Asked(turn, cut, None), Asked(turn, cut, Some(fold));
    var l, within := s.ledger, CurrentJob(s.ledger.jobs);
    var pushed := Push(l, turn);
    AskedShows(s, v, turn, cut);
    StepKeepsSound(s, plain);
    StepKeepsSound(s, d);
    WhatOpened(l, turn);
    NothingOpened(l, turn, fold);
    var after := Did(s, d).ledger.jobs;
    var m := ClosedMessage(after, turn.job, fold.text, ByExitCode);
    var u := AppliedAll(v, Said(s, plain));
    CurrentCloseKeeps(pushed, fold, ByExitCode);
    CloseShows(u, pushed.jobs, turn.job, fold, ByExitCode, after);
    AppliedOne(u, m);
    AppliedAllAppend(v, Said(s, plain), [m]);
    assert Said(s, d) == Said(s, plain) + [m];
  }

  /** Without a plan there is no condition to meet: no turn both opens a job and closes it. */
  lemma NothingOpened(l: Ledger, turn: Turn, fold: Fold)
    requires Alternates(l) && turn.job == LandingJob(l.jobs)
    requires MayBeMet(Landed(l.jobs, turn.prompt), turn.job)
    requires Numbered(Push(l, turn).jobs)
    ensures Opened(CurrentJob(l.jobs), CurrentClosed(Push(l, turn).jobs, fold, ByExitCode), turn.id) == []
    ensures CurrentJob(l.jobs).Some?
  {
    PushKeeps(l, turn);
    FindIsPosition(Push(l, turn).jobs, turn.job);
    CurrentCloseKeeps(Push(l, turn), fold, ByExitCode);
    CurrentIsTheLast(l.jobs);
  }

  /** Approving is closing, and then opening: the reader sees the two in that order. */
  lemma ApprovalShows(s: Live, v: View, amended: Plan, approver: ApprovedBy, fold: Fold)
    requires Mirrors(s, v) && Can(s, Approval(amended, approver, fold))
    ensures var d := Approval(amended, approver, fold); Mirrors(Did(s, d), AppliedAll(v, Said(s, d)))
  {
    hide NoEmptyDraft, InOrder, FoldsHaveSummaries, OnlyTheLastIsOpen, AppliedAll, Applied, ShowsTurns, ShowsJobs, ClosedMessage,
      CloseJob, OnTheTable, Answered, JobAt, Settled;
    var d, p := Approval(amended, approver, fold), s.pending.value;
    var l, draft := s.ledger, CurrentJob(s.ledger.jobs);
    var closed := CurrentClosed(l.jobs, fold, ByApproval);
    var after := Did(s, d).ledger.jobs;
    StepKeepsSound(s, d);
    CurrentCloseKeeps(l, fold, ByApproval);
    AnswerShows(l.rounds, p, Approved(|l.jobs| + 1));
    var first := if draft.Some? then [ClosedMessage(after, draft.value, fold.text, ByApproval)] else [];
    var u := AppliedAll(v, first);
    if draft.Some? {
      CloseShows(v, l.jobs, draft.value, fold, ByApproval, after);
      AppliedOne(v, first[0]);
    } else {
      AppliedNone(v);
    }
    assert ShowsJobs(u.jobs, closed) && u == v.(jobs := u.jobs);
    var m := JobApproved(|l.jobs| + 1, draft, p.objective, amended, Some(approver));
    OpenedShows(u, closed, l.rounds, p, m);
    AppliedOne(u, m);
    AppliedAllAppend(v, first, [m]);
    assert Said(s, d) == first + [m];
  }

  lemma OpenedShows(u: View, jobs: seq<Job>, rounds: seq<Round>, p: Pending, m: ServerMessage)
    requires m.JobApproved? && m.job == |jobs| + 1 && m.objective == p.objective && m.approvedBy.Some?
    requires Numbered(jobs) && ShowsJobs(u.jobs, jobs) && Settled(rounds) && u.rounds == rounds + Table(Some(p))
    ensures var news := jobs + [Planned(|jobs| + 1, p.objective, m.plan, m.approvedBy.value)];
            && ShowsJobs(Applied(u, m).jobs, news) && Applied(u, m).turns == u.turns
            && Applied(u, m).rounds == Answered(u.rounds, Approved(|jobs| + 1))
  {
    hide OnTheTable, Answered, JobAt;
    ViewAt(u.jobs, jobs, m.job);
  }

  /** Every step a session can take leaves the reader of its announcements in step. */
  lemma StepShows(s: Live, v: View, d: Deed)
    requires Mirrors(s, v) && Can(s, d)
    ensures Mirrors(Did(s, d), AppliedAll(v, Said(s, d)))
  {
    hide NoEmptyDraft, InOrder, FoldsHaveSummaries, OnlyTheLastIsOpen, AppliedAll, ShowsTurns, ShowsJobs, ClosedMessage, CloseJob, OnTheTable, Answered;
    StepKeepsSound(s, d);
    match d
    case Asked(turn, cut, met) =>
      match met {
        case None => AskedShows(s, v, turn, cut);
        case Some(fold) => MetShows(s, v, turn, cut, fold);
      }
    case Proposed(objective, plan, source) =>
      AppliedOne(v, Said(s, d)[0]);
      assert v.rounds == s.ledger.rounds;
    case Approval(amended, approver, fold) =>
      ApprovalShows(s, v, amended, approver, fold);
    case Refusal =>
      AppliedOne(v, PlanDeclined);
      AnswerShows(s.ledger.rounds, s.pending.value, Declined);
    case Close(job, fold) =>
      CloseKeeps(s.ledger, job, fold.text, fold.counter, ByUser, fold.replaced);
      if Closable(s.ledger.jobs, job) {
        CloseShows(v, s.ledger.jobs, job, fold, ByUser, Did(s, d).ledger.jobs);
        AppliedOne(v, Said(s, d)[0]);
      } else {
        AppliedNone(v);
      }
    case Reopening(job) =>
      if Reopenable(s.ledger.jobs, job) {
        ReopenShows(v, s.ledger.jobs, job);
        AppliedOne(v, Said(s, d)[0]);
      } else {
        AppliedNone(v);
      }
  }

  lemma AppliedNone(v: View)
    ensures AppliedAll(v, []) == v
  {
  }

  // ------------------------------------------------------------------------------- over whole runs

  const NOTHING := View([], [], [])

  /** The simulation: after any run, folding everything announced shows the session. */
  lemma {:induction false} AnnouncementsMirror(run: seq<Deed>)
    requires Legal(run)
    ensures Mirrors(Played(run), AppliedAll(NOTHING, Heard(run)))
  {
    if run != [] {
      var front, d := run[..|run| - 1], run[|run| - 1];
      AnnouncementsMirror(front);
      StepShows(Played(front), AppliedAll(NOTHING, Heard(front)), d);
      AppliedAllAppend(NOTHING, Heard(front), Said(Played(front), d));
    }
  }

  /** A run stays playable whatever is done next that can be done. */
  lemma RunsStaySound(run: seq<Deed>, d: Deed)
    requires Legal(run) && Can(Played(run), d)
    ensures Sound(Played(run)) && Legal(run + [d])
  {
    AnnouncementsMirror(run);
    assert (run + [d])[..|run|] == run;
  }

  /** The same job, its summary counted again by the counter a resume has. */
  function Recounted(job: Job, c: TokenCounter): Job {
    match job.summary
    case Some(s) => job.(summary := Some(Summary(s.text, c.count(s.text), c.id, s.replaced)))
    case None => job
  }

  /** The same calls with their results, each with its text written again from the call. */
  function Rewritten(steps: seq<ToolStep>, wire: Wire): (r: seq<ToolStep>)
    ensures |r| == |steps| && forall k | 0 <= k < |steps| :: r[k] == steps[k].(text := Refenced(wire, steps[k].call))
  {
    if steps == [] then []
    else
      var last := steps[|steps| - 1];
      Rewritten(steps[..|steps| - 1], wire) + [last.(text := Refenced(wire, last.call))]
  }

  lemma StepsAreRewritten(steps: seq<ToolStep>, wire: Wire)
    requires InReplyOrder(steps)
    ensures RestoredSteps(CallViews(steps, |steps|), wire) == Rewritten(steps, wire)
  {
    forall k | 0 <= k < |steps| ensures RestoredSteps(CallViews(steps, |steps|), wire)[k] == Rewritten(steps, wire)[k] {
      StepsComeBack(steps, wire, k);
    }
  }

  /** What a resume is to the session it resumes: its turns with their jobs and their calls,
      its jobs, its rounds and its floor; only the words around a call, and the count of a
      summary, are made again. */
  predicate Resumes(r: Restored, s: Live, c: TokenCounter, wire: Wire) {
    && |r.turns| == |s.ledger.turns|
    && (forall i | 0 <= i < |r.turns| :: var turn := s.ledger.turns[i];
          r.turns[i] == RestoredTurn(turn.id, turn.job, turn.prompt, Rewritten(turn.steps, wire)))
    && |r.jobs| == |s.ledger.jobs|
    && (forall i | 0 <= i < |r.jobs| :: r.jobs[i] == Recounted(s.ledger.jobs[i], c))
    && r.rounds == s.ledger.rounds + Table(s.pending)
    && r.floor == s.floor
  }

  lemma TurnsResume(views: seq<TurnView>, turns: seq<Turn>, floor: nat, draft: JobId, wire: Wire)
    requires ShowsTurns(views, turns, floor)
    ensures !AnyUnattributed(views)
    ensures forall i | 0 <= i < |turns| ::
      RestoredTurns(views, draft, wire)[i]
      == RestoredTurn(turns[i].id, turns[i].job, turns[i].prompt, Rewritten(turns[i].steps, wire))
  {
    hide CallViews, Rewritten, RestoredSteps;
    forall i | 0 <= i < |turns| ensures RestoredSteps(views[i].tools, wire) == Rewritten(turns[i].steps, wire) {
      assert ShowsTurn(views[i], turns[i], i < floor);
      StepsAreRewritten(turns[i].steps, wire);
    }
    forall i | 0 <= i < |turns| ensures views[i].job.Some? { assert ShowsTurn(views[i], turns[i], i < floor); }
  }

  lemma FloorResumes(views: seq<TurnView>, turns: seq<Turn>, floor: nat)
    requires ShowsTurns(views, turns, floor) && floor <= |turns|
    ensures LeadingEvicted(views) == floor
  {
    hide CallViews;
    forall i | 0 <= i < |views| ensures views[i].evictedBy.Some? <==> i < floor {
      assert ShowsTurn(views[i], turns[i], i < floor);
    }
    var n := LeadingEvicted(views);
    assert n < |views| ==> (views[n].evictedBy.Some? <==> n < floor);
    assert n > 0 ==> (views[n - 1].evictedBy.Some? <==> n - 1 < floor);
  }

  /** A view that mirrors a session resumes to it. */
  lemma MirrorsResume(s: Live, v: View, c: TokenCounter, wire: Wire)
    requires Mirrors(s, v)
    ensures Resumes(FromView(v, c, wire), s, c, wire)
  {
    hide NoEmptyDraft, InOrder, FoldsHaveSummaries, OnlyTheLastIsOpen, ShowsTurns, Rewritten, LeadingEvicted;
    TurnsResume(v.turns, s.ledger.turns, s.floor, MaxId(RestoredJobs(v.jobs, c)) + 1, wire);
    FloorResumes(v.turns, s.ledger.turns, s.floor);
    assert |v.turns| == |s.ledger.turns| by { SameLength(v.turns, s.ledger.turns, s.floor); }
    forall i | 0 <= i < |v.jobs| ensures RestoredJob(v.jobs[i], c) == Recounted(s.ledger.jobs[i], c) {
      assert ShowsJob(v.jobs[i], s.ledger.jobs[i]);
    }
  }

  lemma SameLength(views: seq<TurnView>, turns: seq<Turn>, floor: nat)
    requires ShowsTurns(views, turns, floor)
    ensures |views| == |turns|
  {
  }

  /** Resuming from everything a run announced gives back that run's session. */
  lemma ResumeIsFaithful(run: seq<Deed>, c: TokenCounter, wire: Wire)
    requires Legal(run)
    ensures Resumes(FromView(AppliedAll(NOTHING, Heard(run)), c, wire), Played(run), c, wire)
  {
    AnnouncementsMirror(run);
    MirrorsResume(Played(run), AppliedAll(NOTHING, Heard(run)), c, wire);
  }
}
