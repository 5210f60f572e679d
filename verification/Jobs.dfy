/** Jobs, the plans they are held to, and the rounds a plan takes at the gate. */
module Jobs {
  import opened Conversation

  /** A plan is compared and carried, never read here, except for the command whose
      success closes the job. */
  datatype Plan = Plan(tasks: seq<string>, files: seq<string>, writes: seq<string>,
                       commands: seq<string>, closesOn: Option<string>)

  datatype JobState = Open | Closed

  datatype ClosedBy = ByUser | ByApproval | ByExitCode

  datatype ApprovedBy = Operator | Key(name: string)

  datatype PlanSource = Written | FromModel | Prose

  /** What a fold stands for: its turns, their price before it, and its own. */
  datatype Replaced = Replaced(turns: seq<TurnId>, tokens: nat, summaryTokens: nat)

  datatype Summary = Summary(text: string, tokens: nat, countedBy: CounterId, replaced: Option<Replaced>)

  datatype Job = Job(id: JobId, objective: string, plan: Option<Plan>, state: JobState,
                     summary: Option<Summary>, closedBy: Option<ClosedBy>, approvedBy: Option<ApprovedBy>)
  {
    predicate IsOpen() { state == Open }
    predicate IsClosed() { state == Closed }
    predicate IsDraft() { plan.None? }

    /** The fold is written once, at the close, by the counter in force there. */
    function Close(text: string, c: TokenCounter, closer: ClosedBy, replaced: Replaced): Job {
      var tokens := c.count(text);
      this.(state := Closed, closedBy := Some(closer),
            summary := Some(Summary(text, tokens, c.id, Some(replaced.(summaryTokens := tokens)))))
    }

    function Reopen(): Job {
      this.(state := Open, summary := None, closedBy := None)
    }
  }

  function Draft(id: JobId, objective: string): Job {
    Job(id, objective, None, Open, None, None, None)
  }

  function Planned(id: JobId, objective: string, plan: Plan, approver: ApprovedBy): Job {
    Job(id, objective, Some(plan), Open, None, None, Some(approver))
  }

  datatype Answer = Approved(job: JobId) | Declined

  datatype Round = Round(objective: string, plan: Plan, source: PlanSource, answer: Option<Answer>)

  /** The first job of that id, which is the only one wherever ids are positions. */
  function FindJob(jobs: seq<Job>, id: JobId): Option<Job> {
    if jobs == [] then None
    else if jobs[0].id == id then Some(jobs[0])
    else FindJob(jobs[1..], id)
  }

  predicate ClosedJob(jobs: seq<Job>, id: JobId) {
    var job := FindJob(jobs, id);
    job.Some? && job.value.IsClosed()
  }

  /** Turns land in the last job while it is open, and otherwise in a new draft. */
  function CurrentJob(jobs: seq<Job>): Option<JobId> {
    if jobs != [] && jobs[|jobs| - 1].IsOpen() then Some(jobs[|jobs| - 1].id) else None
  }

  /** A job's id is its place, counting from one. */
  predicate Numbered(jobs: seq<Job>) {
    forall i | 0 <= i < |jobs| :: jobs[i].id == i + 1
  }

  lemma {:induction false} FindByPosition(jobs: seq<Job>, id: JobId, base: nat)
    requires forall i | 0 <= i < |jobs| :: jobs[i].id == base + i + 1
    ensures FindJob(jobs, id) == if base < id <= base + |jobs| then Some(jobs[id - base - 1]) else None
  {
    if jobs != [] && jobs[0].id != id {
      FindByPosition(jobs[1..], id, base + 1);
    }
  }
}
