/** The persisted records shared by the background scripts and the page scripts. */
module Records {
  import opened Basics

  const Pending: string := "pending"
  const Filled: string := "filled"
  const Submitted: string := "submitted"
  const Failed: string := "failed"

  /**
   * A proposal record as fetched from the proposal service and kept in the
   * store. Every property is optional, as on a plain JavaScript object;
   * `None` means the property is absent. `bidAmount` is kept as its text.
   */
  datatype Proposal = Proposal(
    jobUrl: Option<string>,
    jobId: Option<string>,
    jobTitle: Option<string>,
    proposalText: Option<string>,
    bidAmount: Option<string>,
    estimatedHours: Option<string>,
    screeningAnswers: Option<string>,
    status: Option<string>,
    storedAt: Option<int>,
    updatedAt: Option<int>,
    statusUpdatedAt: Option<int>,
    errorMessage: Option<string>)

  /** An entry of the submission queue. */
  datatype Job = Job(jobUrl: Option<string>, jobTitle: Option<string>, addedAt: int)

  /** A scraped job listing, of which only the URL and the title are read. */
  datatype ScrapedJob = ScrapedJob(url: Option<string>, title: Option<string>)

  /** `{newCount, totalCount}` as returned by storing proposals. */
  datatype Counts = Counts(newCount: nat, totalCount: nat)

  /**
   * What a background operation asks the browser to do once it has returned:
   * run the queue again after `delay` ms, run the queue right away, run the
   * enqueueing step right away, or open a tab on a job and drive it there.
   */
  datatype Effect =
    | NoEffect
    | ScheduleQueue(delay: int)
    | RunQueueNow
    | RunAddJobsNow
    | OpenTab(job: Job, proposal: Proposal)

  /** A message a page script sends to the background script. */
  datatype Report =
    | MarkJobAsSubmitted(url: Option<string>, success: bool)
    | UpdateProposalStatus(url: Option<string>, status: string, errorMessage: Option<string>)
}
