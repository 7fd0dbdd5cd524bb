/** The extension's persisted key-value store, `chrome.storage.local`. */
module Storage {
  import opened Basics
  import opened Records

  /**
   * One field per key the core reads or writes; `None` is a missing key.
   * Whether the store's reads and writes succeed is fixed per store:
   * `readable` and `writable` decide whether `get` and `set` reject.
   */
  class LocalStorage {
    var submissionQueue: Option<seq<Job>>
    var storedProposals: Option<seq<Proposal>>
    var scrapedJobs: Option<seq<ScrapedJob>>
    var autoSubmissionEnabled: Option<bool>
    var autoSubmissionDelay: Option<int>
    const readable: bool
    const writable: bool

    constructor (queue: Option<seq<Job>>, proposals: Option<seq<Proposal>>,
                 scraped: Option<seq<ScrapedJob>>, enabled: Option<bool>,
                 delay: Option<int>, canRead: bool, canWrite: bool)
      ensures submissionQueue == queue && storedProposals == proposals
      ensures scrapedJobs == scraped && autoSubmissionEnabled == enabled
      ensures autoSubmissionDelay == delay
      ensures readable == canRead && writable == canWrite
    {
      submissionQueue := queue;
      storedProposals := proposals;
      scrapedJobs := scraped;
      autoSubmissionEnabled := enabled;
      autoSubmissionDelay := delay;
      readable := canRead;
      writable := canWrite;
    }

    /** `data.submissionQueue || []` after a successful read. */
    function Queue(): seq<Job>
      reads this
    {
      submissionQueue.GetOr([])
    }

    /** `data.storedProposals || []` after a successful read. */
    function Proposals(): seq<Proposal>
      reads this
    {
      storedProposals.GetOr([])
    }
  }
}
