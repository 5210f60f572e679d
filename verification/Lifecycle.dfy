/** The alternation of jobs: what a push, an approval, a close and a reopen do to the
    session's jobs, what every one of them keeps, and what that means for the window. */
module Lifecycle {
  import opened Conversation
  import opened Jobs
  import opened Window

  datatype Ledger = Ledger(turns: seq<Turn>, jobs: seq<Job>, rounds: seq<Round>)

  predicate OnlyTheLastIsOpen(jobs: seq<Job>) {
    forall i | 0 <= i < |jobs| - 1 :: jobs[i].IsClosed()
  }

  predicate FoldsHaveSummaries(jobs: seq<Job>) {
    forall i | 0 <= i < |jobs| :: jobs[i].IsClosed() == jobs[i].summary.Some? == jobs[i].closedBy.Some?
  }

  /** Every turn was asked inside a job the session has, and jobs never go back. */
  predicate InOrder(turns: seq<Turn>, jobs: seq<Job>) {
    && (forall i | 0 <= i < |turns| :: 1 <= turns[i].job <= |jobs|)
    && (forall i, j | 0 <= i < j < |turns| :: turns[i].job <= turns[j].job)
  }

  /** The first turn of a job was asked in these words. */
  ghost predicate FirstAsked(turns: seq<Turn>, job: JobId, prompt: string) {
    exists i | 0 <= i < |turns| ::
      turns[i].job == job && turns[i].prompt == prompt && forall j | 0 <= j < i :: turns[j].job != job
  }

  /** A draft exists only because a turn landed in it, and is named by what that turn asked. */
  ghost predicate NoEmptyDraft(turns: seq<Turn>, jobs: seq<Job>) {
    forall i | 0 <= i < |jobs| && jobs[i].IsDraft() :: FirstAsked(turns, i + 1, jobs[i].objective)
  }

  ghost predicate Alternates(l: Ledger) {
    && Numbered(l.jobs) && OnlyTheLastIsOpen(l.jobs) && FoldsHaveSummaries(l.jobs)
    && InOrder(l.turns, l.jobs) && NoEmptyDraft(l.turns, l.jobs)
  }

  /** The job the next turn lands in. */
  function LandingJob(jobs: seq<Job>): JobId {
    match CurrentJob(jobs)
    case Some(job) => job
    case None => |jobs| + 1
  }

  /** The jobs after a turn asked as `prompt` has landed. */
  function Landed(jobs: seq<Job>, prompt: string): seq<Job> {
    match CurrentJob(jobs)
    case Some(_) => jobs
    case None => jobs + [Draft(|jobs| + 1, prompt)]
  }

  function Push(l: Ledger, turn: Turn): Ledger {
    l.(turns := l.turns + [turn], jobs := Landed(l.jobs, turn.prompt))
  }

  predicate Closable(jobs: seq<Job>, id: JobId) {
    var job := FindJob(jobs, id);
    job.Some? && job.value.IsOpen()
  }

  function CloseJob(jobs: seq<Job>, id: JobId, text: string, c: TokenCounter, closer: ClosedBy, replaced: Replaced)
    : seq<Job>
    requires Numbered(jobs)
  {
    if 1 <= id <= |jobs| && jobs[id - 1].IsOpen()
    then jobs[id - 1 := jobs[id - 1].Close(text, c, closer, replaced)]
    else jobs
  }

  predicate Reopenable(jobs: seq<Job>, id: JobId) {
    jobs != [] && jobs[|jobs| - 1].id == id && jobs[|jobs| - 1].IsClosed()
  }

  function ReopenJob(jobs: seq<Job>, id: JobId): seq<Job> {
    if Reopenable(jobs, id) then jobs[|jobs| - 1 := jobs[|jobs| - 1].Reopen()] else jobs
  }

  /** An approval: the job it opens and the round it answers, over jobs whose draft has
      already been closed. */
  function Approve(l: Ledger, objective: string, proposed: Plan, plan: Plan, source: PlanSource, approver: ApprovedBy)
    : Ledger
  {
    var id := |l.jobs| + 1;
    l.(jobs := l.jobs + [Planned(id, objective, plan, approver)],
       rounds := l.rounds + [Round(objective, proposed, source, Some(Approved(id)))])
  }

  // ------------------------------------------------------------------- what every step keeps

  lemma CurrentIsTheLast(jobs: seq<Job>)
    requires Numbered(jobs)
    ensures CurrentJob(jobs).Some? ==> jobs != [] && CurrentJob(jobs).value == |jobs| && jobs[|jobs| - 1].IsOpen()
    ensures CurrentJob(jobs).None? ==> forall i | i == |jobs| - 1 && 0 <= i :: jobs[i].IsClosed()
  {
  }

  lemma FindIsPosition(jobs: seq<Job>, id: JobId)
    requires Numbered(jobs)
    ensures FindJob(jobs, id) == if 1 <= id <= |jobs| then Some(jobs[id - 1]) else None
  {
    FindByPosition(jobs, id, 0);
  }

  lemma PushKeeps(l: Ledger, turn: Turn)
    requires Alternates(l) && turn.job == LandingJob(l.jobs)
    ensures Alternates(Push(l, turn)) && l.jobs <= Push(l, turn).jobs
    ensures !ClosedJob(Push(l, turn).jobs, turn.job)
  {
    hide FindJob, NoEmptyDraft;
    FindIsPosition(Push(l, turn).jobs, turn.job);
    CurrentIsTheLast(l.jobs);
    PushFillsDrafts(l, turn);
  }

  lemma PushFillsDrafts(l: Ledger, turn: Turn)
    requires Numbered(l.jobs) && InOrder(l.turns, l.jobs)
    requires NoEmptyDraft(l.turns, l.jobs) && turn.job == LandingJob(l.jobs)
    ensures NoEmptyDraft(Push(l, turn).turns, Push(l, turn).jobs)
  {
    var after := Push(l, turn);
    forall i | 0 <= i < |after.jobs| && after.jobs[i].IsDraft()
      ensures FirstAsked(after.turns, i + 1, after.jobs[i].objective)
    {
      if i < |l.jobs| {
        assert FirstAsked(l.turns, i + 1, l.jobs[i].objective);
        var k :| 0 <= k < |l.turns| && l.turns[k].job == i + 1 && l.turns[k].prompt == l.jobs[i].objective
          && forall j | 0 <= j < k :: l.turns[j].job != i + 1;
        assert after.turns[k] == l.turns[k];
      } else {
        assert after.turns[|l.turns|].job == i + 1;
      }
    }
  }

  lemma CloseKeeps(l: Ledger, id: JobId, text: string, c: TokenCounter, closer: ClosedBy, replaced: Replaced)
    requires Alternates(l)
    ensures Alternates(l.(jobs := CloseJob(l.jobs, id, text, c, closer, replaced)))
    ensures Closable(l.jobs, id) <==> 1 <= id == |l.jobs| && l.jobs[|l.jobs| - 1].IsOpen()
    ensures Closable(l.jobs, id) ==> CurrentJob(CloseJob(l.jobs, id, text, c, closer, replaced)).None?
    ensures !Closable(l.jobs, id) ==> CloseJob(l.jobs, id, text, c, closer, replaced) == l.jobs
  {
    FindIsPosition(l.jobs, id);
  }

  /** What a close writes down and what it leaves: the fold at its own price by the counter
      in force, who closed it and what it replaced, and every other job as it was. */
  lemma FoldIsRecorded(l: Ledger, id: JobId, text: string, c: TokenCounter, closer: ClosedBy, replaced: Replaced)
    requires Alternates(l) && Closable(l.jobs, id)
    ensures var jobs := CloseJob(l.jobs, id, text, c, closer, replaced);
            && 1 <= id == |jobs| == |l.jobs| && jobs[..id - 1] == l.jobs[..id - 1]
            && jobs[id - 1].IsClosed() && jobs[id - 1].closedBy == Some(closer) && jobs[id - 1].summary.Some?
            && jobs[id - 1].summary.value.text == text && jobs[id - 1].summary.value.countedBy == c.id
            && jobs[id - 1].summary.value.tokens == c.count(text)
            && jobs[id - 1].summary.value.replaced == Some(Replaced(replaced.turns, replaced.tokens, c.count(text)))
  {
    FindIsPosition(l.jobs, id);
  }

  /** Nothing is recovered by a reopen, because a close deletes nothing: taking the fold
      back leaves the jobs exactly as they were before it. */
  lemma ReopenUndoesClose(l: Ledger, id: JobId, text: string, c: TokenCounter, closer: ClosedBy, replaced: Replaced)
    requires Alternates(l) && Closable(l.jobs, id)
    ensures ReopenJob(CloseJob(l.jobs, id, text, c, closer, replaced), id) == l.jobs
  {
    FindIsPosition(l.jobs, id);
  }

  lemma ReopenKeeps(l: Ledger, id: JobId)
    requires Alternates(l)
    ensures Alternates(l.(jobs := ReopenJob(l.jobs, id)))
    ensures Reopenable(l.jobs, id) ==> CurrentJob(ReopenJob(l.jobs, id)) == Some(id)
  {
  }

  /** Approving needs nothing open; it leaves its own job open and last. */
  lemma ApproveKeeps(l: Ledger, objective: string, proposed: Plan, plan: Plan, source: PlanSource, approver: ApprovedBy)
    requires Alternates(l) && CurrentJob(l.jobs).None?
    ensures Alternates(Approve(l, objective, proposed, plan, source, approver))
    ensures CurrentJob(Approve(l, objective, proposed, plan, source, approver).jobs) == Some(|l.jobs| + 1)
  {
    CurrentIsTheLast(l.jobs);
  }

  // ------------------------------------------------------------------ one fold per closed job

  lemma {:induction false} RunEndMeaning(turns: seq<Turn>, index: nat, job: JobId)
    requires index <= |turns|
    ensures forall i | index <= i < RunEnd(turns, index, job) :: turns[i].job == job
    ensures RunEnd(turns, index, job) < |turns| ==> turns[RunEnd(turns, index, job)].job != job
    decreases |turns| - index
  {
    if index < |turns| && turns[index].job == job {
      RunEndMeaning(turns, index + 1, job);
    }
  }

  predicate FoldsAscend(items: seq<Item>) {
    forall j, k | 0 <= j < k < |items| && items[j].Folded? && items[k].Folded? :: items[j].job < items[k].job
  }

  predicate FoldsFrom(items: seq<Item>, job: JobId) {
    forall k | 0 <= k < |items| && items[k].Folded? :: job <= items[k].job
  }

  /** The folds of a window are of strictly increasing jobs, all at or after the job its
      first turn belongs to. */
  lemma {:induction false} FoldsIncrease(turns: seq<Turn>, jobs: seq<Job>, floor: nat)
    requires InOrder(turns, jobs)
    ensures FoldsAscend(ItemsFrom(turns, jobs, floor))
    ensures floor < |turns| ==> FoldsFrom(ItemsFrom(turns, jobs, floor), turns[floor].job)
    decreases |turns| - floor
  {
    if floor < |turns| {
      var items, job := ItemsFrom(turns, jobs, floor), turns[floor].job;
      var next := if ClosedJob(jobs, job) then RunEnd(turns, floor + 1, job) else floor + 1;
      RunEndMeaning(turns, floor + 1, job);
      FoldsIncrease(turns, jobs, next);
      var rest := ItemsFrom(turns, jobs, next);
      assert items == [items[0]] + rest;
      if next < |turns| {
        assert job <= turns[next].job && (items[0].Folded? ==> job != turns[next].job);
        FoldsCons(items[0], rest, job, turns[next].job);
      } else {
        assert items == [items[0]];
      }
    }
  }

  lemma FoldsCons(item: Item, rest: seq<Item>, job: JobId, next: JobId)
    requires FoldsAscend(rest) && FoldsFrom(rest, next) && job <= next
    requires item.Folded? ==> item.job == job < next
    ensures FoldsAscend([item] + rest) && FoldsFrom([item] + rest, job)
  {
    var items := [item] + rest;
    forall k | 0 < k < |items| ensures items[k] == rest[k - 1] {}
    forall j, k | 0 <= j < k < |items| && items[j].Folded? && items[k].Folded? ensures items[j].job < items[k].job {
      assert rest[k - 1].Folded? && next <= rest[k - 1].job;
      if j > 0 { assert rest[j - 1].job < rest[k - 1].job; }
    }
    forall k | 0 <= k < |items| && items[k].Folded? ensures job <= items[k].job {
      if k > 0 { assert rest[k - 1].Folded? && next <= rest[k - 1].job; }
    }
  }

  /** Each turn at or above the floor is covered: by itself while its job is open, and by
      its job's fold once it is closed. */
  lemma {:induction false} EveryTurnIsCovered(turns: seq<Turn>, jobs: seq<Job>, floor: nat, i: nat)
    requires floor <= i < |turns|
    ensures exists k | 0 <= k < |ItemsFrom(turns, jobs, floor)| ::
              var item := ItemsFrom(turns, jobs, floor)[k];
              if ClosedJob(jobs, turns[i].job) then item.Folded? && item.job == turns[i].job else item == Live(i)
    decreases |turns| - floor
  {
    var items, job := ItemsFrom(turns, jobs, floor), turns[floor].job;
    var next := if ClosedJob(jobs, job) then RunEnd(turns, floor + 1, job) else floor + 1;
    RunEndMeaning(turns, floor + 1, job);
    if i < next {
      assert if ClosedJob(jobs, turns[i].job) then items[0].Folded? && items[0].job == turns[i].job else items[0] == Live(i);
    } else {
      EveryTurnIsCovered(turns, jobs, next, i);
      var rest := ItemsFrom(turns, jobs, next);
      var k :| 0 <= k < |rest| &&
        if ClosedJob(jobs, turns[i].job) then rest[k].Folded? && rest[k].job == turns[i].job else rest[k] == Live(i);
      assert items[k + 1] == rest[k];
    }
  }

  /** What an item stands for: a turn of a job that is open, or a closed job from where its
      run of turns begins, or from the floor where that cuts it. */
  predicate StandsFor(turns: seq<Turn>, jobs: seq<Job>, floor: nat, item: Item) {
    match item
    case Live(i) => floor <= i < |turns| && !ClosedJob(jobs, turns[i].job)
    case Folded(job, first) =>
      && floor <= first < |turns| && turns[first].job == job && ClosedJob(jobs, job)
      && (first == floor || turns[first - 1].job != job)
  }

  lemma {:induction false} ItemsStandForTurns(turns: seq<Turn>, jobs: seq<Job>, floor: nat, item: Item)
    requires item in ItemsFrom(turns, jobs, floor)
    ensures StandsFor(turns, jobs, floor, item)
    decreases |turns| - floor
  {
    var job := turns[floor].job;
    var next := if ClosedJob(jobs, job) then RunEnd(turns, floor + 1, job) else floor + 1;
    RunEndMeaning(turns, floor + 1, job);
    if item in ItemsFrom(turns, jobs, next) {
      ItemsStandForTurns(turns, jobs, next, item);
      if item.Folded? && item.first == next && ClosedJob(jobs, job) {
        assert turns[next].job != job && turns[next - 1].job == job;
      }
    }
  }

  function FoldsOf(items: seq<Item>, job: JobId): nat {
    if items == [] then 0
    else (if items[0].Folded? && items[0].job == job then 1 else 0) + FoldsOf(items[1..], job)
  }

  lemma {:induction false} CountOfDistinct(items: seq<Item>, job: JobId, k: nat)
    requires k < |items| && items[k].Folded? && items[k].job == job
    requires FoldsAscend(items)
    ensures FoldsOf(items, job) == 1
  {
    if k == 0 {
      NoneOf(items[1..], job);
    } else {
      assert items[1..][k - 1] == items[k];
      CountOfDistinct(items[1..], job, k - 1);
    }
  }

  lemma {:induction false} NoneOf(items: seq<Item>, job: JobId)
    requires forall i | 0 <= i < |items| && items[i].Folded? :: items[i].job != job
    ensures FoldsOf(items, job) == 0
  {
    if items != [] {
      NoneOf(items[1..], job);
    }
  }

  /** Over every session that alternates: a closed job with a turn at or above the floor is
      rendered as exactly one fold, however the floor cut it. */
  lemma OneFoldPerClosedJob(l: Ledger, floor: nat, i: nat)
    requires Alternates(l) && floor <= i < |l.turns| && ClosedJob(l.jobs, l.turns[i].job)
    ensures FoldsOf(ItemsFrom(l.turns, l.jobs, floor), l.turns[i].job) == 1
  {
    FoldsIncrease(l.turns, l.jobs, floor);
    EveryTurnIsCovered(l.turns, l.jobs, floor, i);
    var items := ItemsFrom(l.turns, l.jobs, floor);
    var k :| 0 <= k < |items| && items[k].Folded? && items[k].job == l.turns[i].job;
    CountOfDistinct(items, l.turns[i].job, k);
  }
}
