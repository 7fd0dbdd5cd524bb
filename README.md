# Upwork job automation: submission queue and proposal store

This project is a Dafny model of the browser extension's auto-submission
pipeline. It covers four scripts.

- **Proposal store** (`proposalManager.js`). Proposals fetched from the
  proposal webhooks are merged into `storedProposals` by `jobUrl`. New
  records are appended as `pending`. The list is then sorted
  by `storedAt || updatedAt || 0`, newest first, and cut to 200 records.
  Statuses are updated in place. The per-webhook polling loop adds up the
  counts of new records.
- **Submission queue** (`autoSubmission.js`). One run of the queue either
  does nothing, drops the head, or opens the head job in a tab together
  with its proposal. Jobs with a `pending` proposal are appended to the
  queue, skipping URLs already queued. Completing a job records
  "submitted" or "failed" and removes every queue entry for that URL.
  `normalizeUrl` is modelled as well.
- **Submitting page script** (`proposalAutoSubmit.js`). It routes by the
  current URL. It picks the Apply and Submit buttons by selector, falling back to
  their text. It fills the cover letter and the rate. It reports the
  outcome to the background script and answers the start message.
- **Filling page script** (`proposalAutoFill.js`). It gates on the page URL,
  extracts the `~digits` job ID and builds the job URL from it. It filters
  on status before filling, then searches for the cover-letter field in
  two passes and reports "filled" or "failed".

How the surroundings are modelled:

- `chrome.storage.local` is the class `Storage.LocalStorage`. It has one
  field per key, and `None` stands for a missing key. Two constant flags
  say whether its reads and writes succeed.
- What a background operation asks the browser to do next is returned as an
  `Effect`. The possible effects are: schedule the queue, run the queue now,
  run the enqueueing step now, or open a tab.
- What a page script sends to the background script is returned as a list of
  `Report` messages.
- The page itself is an input record:
  - the selectors that resolve;
  - the visibility of the elements they find;
  - the button texts in document order;
  - whether a fill throws;
  - the location at each stage.
- The current time is a parameter `now`.
- `new URL(...)` is an input `Option<UrlParts>`, where `None` means the
  constructor threw.
- JavaScript semantics are written out where the code depends on them:
  - truthiness (`Basics.Truthy`, `Basics.TruthyNum`);
  - `===` on possibly missing properties, which is `Option` equality;
  - object spread, a field-wise pick in which the incoming value wins;
  - `new Map` over duplicate keys, where the last entry wins;
  - `find` and `findIndex`, which return the first match;
  - `String.prototype.trim`;
  - a comparator of the form `b.key - a.key`, which sorts in descending order.

Modules:

| file | module | models |
|---|---|---|
| basics.dfy | `Basics` | `Option`, `Result`, truthiness, `includes`, `startsWith`, `toLowerCase` (ASCII letters), `trim`, `split(c)[0]` |
| records.dfy | `Records` | proposal, queue entry, scraped job, counts, effects, reports |
| storage.dfy | `Storage` | `chrome.storage.local` |
| urls.dfy | `Urls` | `normalizeUrl` |
| proposal_store.dfy | `ProposalStore` | `proposalManager.js` |
| submission_queue.dfy | `SubmissionQueue` | `autoSubmission.js` |
| auto_submit.dfy | `AutoSubmit` | `proposalAutoSubmit.js` |
| auto_fill.dfy | `AutoFill` | `proposalAutoFill.js` |

## Notes on what the code does

- **Same URL twice in one batch.** `storeProposals` checks presence only
  against the list it read before the loop. Two new inputs with the same
  `jobUrl` in one call are therefore both appended and both counted
  (`ProposalStore.SameUrlTwiceInOneBatch`).
- **Sort key.** Records are ordered by `storedAt || updatedAt || 0`. An
  updated record whose `storedAt` is old keeps its old position.
- **Read errors in `storeProposals`.** A failed read is rethrown, as is a
  failed write. Only `getAllStoredProposals` returns `[]` on a failed read.
- **Duplicate queue entries.** `addJobsToSubmissionQueue` skips only URLs
  that were in the queue before the call. Two pending records with the same
  URL therefore produce two queue entries
  (`SubmissionQueue.DuplicatePendingQueuedTwice`). The queue stays free of
  duplicates when the pending URLs are distinct
  (`SubmissionQueue.EnqueueKeepsUnique`).
- **Matching and concurrency.**
  - A queued job is matched to its proposal by exact `jobUrl` equality;
    `normalizeUrl` is defined but never called.
  - Nothing prevents a second run from starting before the first one
    reports: it opens the same job again
    (`SubmissionQueue.RunTwiceBeforeReport`).
  - The readiness poll has no time limit (`TabOutcome.NeverReady`).
  - A failed delivery of the start message marks the job as failed at once,
    with no retry.
- **Rescheduling after a run.** The queue schedules its next run in only
  two places: after a dropped head, and in `markJobAsSubmitted`. A
  delivered start message schedules nothing until the page script reports
  back.
- **Syntax error.** `upwork-job-scraper/proposalAutoSubmit.js:31` lacks the
  `)` that closes `new Promise(`, so the file as written does not parse.
  The model follows the evident intent: `waitForElement` either resolves
  with the element or rejects after its timeout.

## Model

| member | source | states |
|---|---|---|
| Basics.BeforeFirst | upwork-job-scraper/autoSubmission.js:19 | `split(c)[0]` is a prefix of the input that holds no `c`; it is the whole input when `c` does not occur, and is followed by `c` otherwise |
| Basics.Lower | upwork-job-scraper/proposalAutoSubmit.js:153 | lower-casing keeps the length and maps each character on its own (ASCII letters only) |
| Basics.LowerAppend | upwork-job-scraper/proposalAutoSubmit.js:153 | lower-casing distributes over concatenation |
| Basics.TrimBlankIff | upwork-job-scraper/proposalManager.js:220 | `trim()` yields "" exactly when the string is all white space |
| Urls.Canonical | upwork-job-scraper/autoSubmission.js:12-16 | the parse path clears query and fragment and keeps scheme, credentials and path. A URL with an opaque path is otherwise left as it was. One leading "www." is removed from the host unless the `hostname` setter refuses the empty host that would leave (special schemes other than "file:", credentials, or a port), and the host is then kept; a "file:" host that becomes "localhost" becomes empty; a URL that had a host keeps one |
| Urls.BareWwwHostKept | upwork-job-scraper/autoSubmission.js:13 | "https://www./x" keeps its host "www.", because the setter ignores an empty host |
| Urls.OpaqueUrlKept | upwork-job-scraper/autoSubmission.js:12-16 | "mailto:x", whose path is opaque and which has no host, is returned unchanged |
| Urls.HostlessUrlGainsEmptyHost | upwork-job-scraper/autoSubmission.js:12-16 | "foo:/x" has no host; setting its host name to "" gives it the empty host, so it is returned as "foo:///x" |
| Urls.FileLocalhostBecomesEmpty | upwork-job-scraper/autoSubmission.js:13 | a "file:" URL whose host is "www.localhost" ends with the empty host: "file:///x" |
| Urls.NormalizeUrl | upwork-job-scraper/autoSubmission.js:10-21 | a parsed URL is serialised in canonical form, with "//" only when it has a host; an unparsable string yields a prefix of itself; the result holds neither '?' nor '#' when the string did not parse, or when the parsed URL is well formed (`WellFormed`: no '?' or '#' in its scheme, credentials, host or path) |
| Urls.FallbackIsCleanPrefix | upwork-job-scraper/autoSubmission.js:19 | the fallback result is a prefix of the input that contains neither '?' nor '#' |
| Urls.FallbackKeepsCleanString | upwork-job-scraper/autoSubmission.js:19 | a string with neither '?' nor '#' is returned unchanged by the fallback |
| Urls.FallbackIdempotent | upwork-job-scraper/autoSubmission.js:19 | applying the fallback twice gives what applying it once gives |
| Urls.StripWwwOnlyOnce | upwork-job-scraper/autoSubmission.js:13 | the anchored pattern removes a single "www.": "www.www.x" becomes "www.x", and only a second pass gives "x" |
| Urls.CanonicalNotIdempotent | upwork-job-scraper/autoSubmission.js:12-16 | canonicalising twice differs from canonicalising once for a "www.www." host |
| ProposalStore.FirstIndexByUrl | upwork-job-scraper/proposalManager.js:100-102 | `findIndex` on exact `jobUrl`: the index found holds the URL and no earlier record does; `None` means no record holds it |
| ProposalStore.FindByUrl | upwork-job-scraper/proposalManager.js:172 | `find` on exact `jobUrl`: returns a record exactly when one has the URL, and that record is the first such |
| ProposalStore.GetAllStoredProposals | upwork-job-scraper/proposalManager.js:154-162 | `[]` when the read fails or the key is missing, otherwise the stored list |
| ProposalStore.GetProposalForJob | upwork-job-scraper/proposalManager.js:169-177 | a result is the first stored record with exactly that URL; `None` means the read failed or no record has the URL |
| ProposalStore.MergedShape | upwork-job-scraper/proposalManager.js:84-121 | the stored records keep their positions and URLs; after them come exactly the new records (valid inputs with a URL not in the pre-call list), in input order; the length is the stored length plus `newCount` |
| ProposalStore.MergedExisting | upwork-job-scraper/proposalManager.js:98-110 | the first stored record with a URL gets every valid input with that URL laid over it in order, incoming fields winning and `updatedAt = now`; every other stored record stays as it was |
| ProposalStore.MergeIgnoresInvalid | upwork-job-scraper/proposalManager.js:90-93 | inputs without a truthy `jobUrl` or `proposalText` change neither the merged list nor `newCount` |
| ProposalStore.SameUrlTwiceInOneBatch | upwork-job-scraper/proposalManager.js:80-120 | two same-URL inputs that are new in one batch are both appended as `pending` with `storedAt = now`, and both are counted |
| ProposalStore.OverlayIdempotent | upwork-job-scraper/proposalManager.js:104-109 | laying the same input over a record twice gives what laying it once gives |
| ProposalStore.MergeIncoming | upwork-job-scraper/proposalManager.js:84-121 | the merge loop computes the merged list and `newCount`, whose shape the two lemmas above describe |
| ProposalStore.InsertSorted | upwork-job-scraper/proposalManager.js:124-125 | inserting into a list sorted by descending key keeps it sorted and adds exactly the one record |
| ProposalStore.SortDescCorrect | upwork-job-scraper/proposalManager.js:124-125 | the comparator sort orders by descending `storedAt \|\| updatedAt \|\| 0` and is a permutation of its input |
| ProposalStore.RetainedKeepsNewest | upwork-job-scraper/proposalManager.js:123-126 | truncation keeps min(n, 200) records; they are sorted, every kept key is at least every dropped key, and together kept and dropped records are the merged multiset; nothing is dropped when n ≤ 200 |
| ProposalStore.StoreResult | upwork-job-scraper/proposalManager.js:124-142 | the persisted list has at most 200 records, `totalCount` is its length, and `newCount` is the number of new inputs |
| ProposalStore.StoreProposals | upwork-job-scraper/proposalManager.js:74-148 | with a working store the merged, sorted and truncated list is written and the counts are returned; a failed read or write is rethrown and nothing is written |
| ProposalStore.WithStatus | upwork-job-scraper/proposalManager.js:188-196 | only the first record with the URL changes: its status and `statusUpdatedAt` are set and `errorMessage` is set only when the message given is truthy; with no match the list is unchanged |
| ProposalStore.UpdateProposalStatus | upwork-job-scraper/proposalManager.js:185-206 | writes the updated list only when a record matches and the store works; otherwise the store is left as it was and the error is swallowed |
| ProposalStore.AggregateNewIsSum | upwork-job-scraper/proposalManager.js:228-242 | the total `newCount` is the sum over the pairs whose fetch and store succeeded |
| ProposalStore.AggregateTotalIsLast | upwork-job-scraper/proposalManager.js:229-241 | `totalCount` is the last successful pair's `totalCount`, and both counts are 0 when no pair succeeded |
| ProposalStore.NoBatchesWithoutWebhooks | upwork-job-scraper/proposalManager.js:219-226 | with no pair whose webhook URL is non-blank, nothing is stored |
| ProposalStore.CheckForNewProposals | upwork-job-scraper/proposalManager.js:212-275 | `{0,0}` with no usable webhook. Otherwise a pair counts exactly when its webhook is set and its fetch and store succeed; a failing pair does not stop the rest. Each successful pair's counts are those its store returned, over what the earlier pairs stored. The result aggregates them, and the store holds the batches stored in pair order. Enqueueing starts exactly when `newCount > 0` |
| ProposalStore.PollAll | upwork-job-scraper/proposalManager.js:228-257 | the polling loop gives the same per-pair outcomes, the same per-pair counts (each tied to its pair's store), the aggregate of them and the same final store as above |
| ProposalStore.OutcomesFacts | upwork-job-scraper/proposalManager.js:228-257 | the per-pair outcomes the loop records are successes exactly for the pairs whose webhook is set, whose fetch succeeded and whose store works, and each success carries the counts of storing its batch over what the earlier pairs left behind |
| ProposalStore.PollPair | upwork-job-scraper/proposalManager.js:235-256 | one pair succeeds exactly when its webhook is set, its fetch succeeded and the store works; it then stores the batch and yields its counts; otherwise the store is unchanged |
| SubmissionQueue.EffectiveDelay | upwork-job-scraper/autoSubmission.js:37 | a truthy stored delay is used, otherwise 5000 |
| SubmissionQueue.DisabledOnlyByFalse | upwork-job-scraper/autoSubmission.js:36 | auto-submission is off exactly when the setting is `false`; a missing setting or `true` leaves it on |
| SubmissionQueue.DelayDefaultsOnMissingOrZero | upwork-job-scraper/autoSubmission.js:37 | the delay is 5000 when the setting is missing or 0, and is the stored value otherwise |
| SubmissionQueue.Decide | upwork-job-scraper/autoSubmission.js:35-74 | idle exactly when disabled or the queue is empty; drop the head exactly when no record has its exact URL or that record is submitted; otherwise dispatch the head with the first matching record, which is not submitted |
| SubmissionQueue.ProcessNextJobInQueue | upwork-job-scraper/autoSubmission.js:26-81 | a failed read does nothing; when idle nothing is written or opened; a dropped head writes `queue[1..]` and schedules the next run only if the write succeeds; a dispatch leaves the queue and the proposals unchanged and opens the head job with its proposal |
| SubmissionQueue.RunTwiceBeforeReport | upwork-job-scraper/autoSubmission.js:49-80 | with no processing flag a second run before any report opens the same head job again |
| SubmissionQueue.AfterTabOpened | upwork-job-scraper/autoSubmission.js:83-131 | a tab that never becomes ready, or a delivered message, changes nothing; a thrown injection or a failed delivery marks the job failed, with no retry |
| SubmissionQueue.RemoveUrl | upwork-job-scraper/autoSubmission.js:206 | no entry with the URL is left; an entry is kept exactly when it was there and has another URL |
| SubmissionQueue.RemoveUrlAppend | upwork-job-scraper/autoSubmission.js:206 | the filter distributes over concatenation, so kept entries keep their order |
| SubmissionQueue.RemoveUrlAbsent | upwork-job-scraper/autoSubmission.js:206 | a queue with no entry for the URL is left exactly as it is |
| SubmissionQueue.RemoveUrlIdempotent | upwork-job-scraper/autoSubmission.js:206 | removing a URL twice is the same as removing it once |
| SubmissionQueue.RemoveUrlMiddle | upwork-job-scraper/autoSubmission.js:206 | an entry for the URL between entries for other URLs is removed, and its neighbours join up in order |
| SubmissionQueue.CompletionStatus | upwork-job-scraper/autoSubmission.js:201 | "submitted" exactly on success, "failed" exactly otherwise |
| SubmissionQueue.CompletedProposals | upwork-job-scraper/autoSubmission.js:201 | the status is recorded, without an error message, on the first record for the URL when one exists and the store works; otherwise the stored proposals are unchanged |
| SubmissionQueue.MarkJobAsSubmitted | upwork-job-scraper/autoSubmission.js:198-216 | records the status; with a working store it writes the queue minus every entry for the URL, leaving the rest in order, and schedules the next run after the effective delay; otherwise the queue is unchanged and nothing is scheduled |
| SubmissionQueue.PendingOf | upwork-job-scraper/autoSubmission.js:145 | every record kept is a record of the input whose status is "pending", and every pending record of the input is kept |
| SubmissionQueue.PendingOfAppend | upwork-job-scraper/autoSubmission.js:145 | the filter distributes over concatenation, so pending records keep their order |
| SubmissionQueue.PendingOfCounts | upwork-job-scraper/autoSubmission.js:145 | a pending record occurs in the filtered list exactly as often as in the input, and a record of any other status not at all |
| SubmissionQueue.LastScrapedByUrl | upwork-job-scraper/autoSubmission.js:160 | the map built from the scraped list finds the last job with the URL, and finds nothing exactly when no job has it |
| SubmissionQueue.NewJobsSound | upwork-job-scraper/autoSubmission.js:163-177 | each new job carries the URL of a pending proposal, a URL not already queued and present among the scraped jobs; its title is the scraped title, or the proposal's title when the scraped one is empty; `addedAt = now` |
| SubmissionQueue.NewJobsComplete | upwork-job-scraper/autoSubmission.js:166-177 | each pending proposal whose URL is neither queued nor missing from the scraped jobs yields a new job |
| SubmissionQueue.NewJobsAppend | upwork-job-scraper/autoSubmission.js:164-177 | new jobs keep the order of their proposals |
| SubmissionQueue.DuplicatePendingQueuedTwice | upwork-job-scraper/autoSubmission.js:163-167 | two pending records with the same scraped URL produce two new entries with that URL |
| SubmissionQueue.EnqueueKeepsUnique | upwork-job-scraper/autoSubmission.js:162-181 | when the queue and the pending URLs are each free of duplicates, the new queue is free of duplicates too |
| SubmissionQueue.CollectNewJobs | upwork-job-scraper/autoSubmission.js:163-177 | the loop builds exactly the new jobs described by the three lemmas above |
| SubmissionQueue.AddJobsToSubmissionQueue | upwork-job-scraper/autoSubmission.js:141-193 | with a working store and something to add, it writes the current queue followed by the new jobs, and starts a run only if the queue was empty; otherwise the queue is unchanged and nothing starts |
| AutoSubmit.FirstIndex | upwork-job-scraper/proposalAutoSubmit.js:140-147 | the first element that satisfies the test; `None` exactly when no element does |
| AutoSubmit.FirstWhere | upwork-job-scraper/proposalAutoSubmit.js:140-147 | the selector loop breaks at the first hit |
| AutoSubmit.ApplyNowMatches | upwork-job-scraper/proposalAutoSubmit.js:151-155 | "Apply Now" matches the Apply fallback, case aside |
| AutoSubmit.SubmitMatches | upwork-job-scraper/proposalAutoSubmit.js:285-289 | "Submit" matches the Submit fallback |
| AutoSubmit.NoTextMatchesNothing | upwork-job-scraper/proposalAutoSubmit.js:286-288 | a button without text matches neither fallback |
| AutoSubmit.DraftNeverSubmits | upwork-job-scraper/proposalAutoSubmit.js:286-288 | a text containing "draft" in any letter case never matches the Submit fallback, whatever surrounds it |
| AutoSubmit.SaveAsDraftNotSubmit | upwork-job-scraper/proposalAutoSubmit.js:286-288 | "Save as Draft" is not taken for the Submit button |
| AutoSubmit.ApplyTarget | upwork-job-scraper/proposalAutoSubmit.js:139-160 | the first resolving Apply selector; failing that, the first element whose text matches; `None` exactly when neither exists |
| AutoSubmit.SubmitTarget | upwork-job-scraper/proposalAutoSubmit.js:273-294 | the first resolving Submit selector; failing that, the first button whose text matches; `None` exactly when neither exists |
| AutoSubmit.RepeatedSubmitSelectorNeverHits | upwork-job-scraper/proposalAutoSubmit.js:266-271 | the duplicated fourth Submit selector is never the one that hits |
| AutoSubmit.AlwaysSubmitted | upwork-job-scraper/proposalAutoSubmit.js:303-309 | the success check always passes, because the third indicator is a boolean and never `null` |
| AutoSubmit.SubmitProposal | upwork-job-scraper/proposalAutoSubmit.js:258-336 | clicks the first Submit target; without one it reports failure for the form page's location and throws; with one it reports success for the location after the click |
| AutoSubmit.FillAndSubmitProposal | upwork-job-scraper/proposalAutoSubmit.js:184-253 | the cover letter counts only when there is text and some selector takes it; the rate counts only when there is a bid and some number or text input takes it; `filledFields ≤ 2`; submission is attempted whatever was filled |
| AutoSubmit.ClickApplyNow | upwork-job-scraper/proposalAutoSubmit.js:129-179 | throws without reporting when there is no Apply target; otherwise hands over to filling and submitting |
| AutoSubmit.RouteOf | upwork-job-scraper/proposalAutoSubmit.js:105-115 | "/proposals/" leads to filling, otherwise "/jobs/" leads to Apply, otherwise the page is invalid |
| AutoSubmit.ProposalsWinsOverJobs | upwork-job-scraper/proposalAutoSubmit.js:105-109 | a URL containing both "/jobs/" and "/proposals/" is routed to filling |
| AutoSubmit.AutoSubmitProposal | upwork-job-scraper/proposalAutoSubmit.js:98-124 | for a defined proposal the call never rejects. A run that reaches the submit click sends one success report, carrying the final location. Any other run ends with a failure report for the proposal's own `jobUrl`, preceded by the Submit step's failure report exactly when the form was reached. An undefined proposal rejects and sends nothing |
| AutoSubmit.OnMessage | upwork-job-scraper/proposalAutoSubmit.js:339-350 | "startAutoSubmission" with a proposal always gets `{success: true}`; without one it gets `{success: false, error}`; other messages get no reply |
| AutoFill.ExtractJobId | upwork-job-scraper/proposalAutoFill.js:299-302 | the capture is "~" followed by at least one digit; it is taken from the leftmost match, which occurs in the URL as "/job/<id>/"; `None` exactly when the pattern matches nowhere |
| AutoFill.CaptureShape | upwork-job-scraper/proposalAutoFill.js:299-301 | a match's capture is "~" followed by digits, and the match spells "/job/" + capture + "/" |
| AutoFill.JobUrlFor | upwork-job-scraper/proposalAutoFill.js:303 | "https://www.upwork.com/jobs/" followed by the ID and a closing "/" |
| AutoFill.ExtractFromApplyPath | upwork-job-scraper/proposalAutoFill.js:298-301 | after any prefix that does not contain "/job/~", the ID is the tilde and the digits that follow "/job/" |
| AutoFill.ApplyUrlYieldsId | upwork-job-scraper/proposalAutoFill.js:298-301 | an apply page URL of the form "https://www.upwork.com/nx/proposals/job/~<digits>/…" yields "~<digits>" |
| AutoFill.NoTrailingSlashNoId | upwork-job-scraper/proposalAutoFill.js:299 | digits not followed by "/" give no ID |
| AutoFill.NoDigitsNoId | upwork-job-scraper/proposalAutoFill.js:299 | a tilde not followed by a digit gives no ID |
| AutoFill.CheckAndFillProposal | upwork-job-scraper/proposalAutoFill.js:280-343 | nothing happens unless the URL contains both "upwork.com" and "/proposals/". The request's URL is the job link's href if there is one, else the URL built from the ID, else the page URL. A fill starts exactly for a returned proposal that is neither filled nor submitted |
| AutoFill.LastPresent | upwork-job-scraper/proposalAutoFill.js:154-170 | the last waited-for selector whose element appears; `None` exactly when none appears |
| AutoFill.FirstVisible | upwork-job-scraper/proposalAutoFill.js:127-144 | the first selector whose element is visible; `None` exactly when none is |
| AutoFill.CoverElement | upwork-job-scraper/proposalAutoFill.js:124-171 | the element chosen in the first pass is visible; one chosen in the second pass comes from the first five selectors; no element is chosen exactly when nothing is visible on the page and nothing appears for the five |
| AutoFill.SearchPresent | upwork-job-scraper/proposalAutoFill.js:127-144 | the first loop stops at the first element that is present and visible |
| AutoFill.SearchAppeared | upwork-job-scraper/proposalAutoFill.js:147-171 | the waiting loop ends holding the first visible element, or else the last element that appeared |
| AutoFill.WaitForSelectors | upwork-job-scraper/proposalAutoFill.js:153-168 | each element that appears replaces the one held before and a visible one ends the loop, so the loop holds the first visible element, else the last one that appeared, else nothing |
| AutoFill.HiddenFieldStillChosen | upwork-job-scraper/proposalAutoFill.js:154-173 | when nothing is visible, the last element that appears is chosen even though it is hidden |
| AutoFill.BlankTextNotTried | upwork-job-scraper/proposalAutoFill.js:115-117 | a cover letter made only of white space is not tried |
| AutoFill.FillProposalForm | upwork-job-scraper/proposalAutoFill.js:74-244 | only the cover letter is filled (`filledFields ≤ 1`). It counts exactly when there is non-blank text, a field is chosen and the fill does not throw. A thrown fill is caught on the spot, and nothing is reported. "filled" is reported exactly when it counted. A missing `addToActivityLog` throws before anything else happens and reports "failed" with its message. A counted fill always passes `fillField`'s guard |

## Left out

- Chrome APIs are not called. Storage is `Storage.LocalStorage`. Tabs, script
  injection and messages are `Effect` and `Report` values, or inputs such as
  `TabOutcome` and the response in `AutoFill.CheckAndFillProposal`. The
  background handlers that receive the page scripts' messages are not part
  of this model.
- Whether a store read or write fails is one constant per store. The model
  therefore does not cover a call whose first read succeeds and whose later
  read fails. In `processNextJobInQueue` such a failure would make
  `getAllStoredProposals` return `[]` and drop the head.
- `chrome.tabs.create` failing is not modelled: `OpenTab` stands for a tab
  that opens.
- Timing is left out: every `setTimeout`, the readiness poll (only its
  never-ending case is kept, as `NeverReady`), `waitForElement` timeouts,
  and the re-run of the fill script on in-page navigation. Which elements
  are found in time is part of the page input.
- DOM effects are left out: clicking, event dispatch, scrolling and the
  notification box. Whether a fill throws is part of the page input.
- Logging is left out: `console`, `logAndReportError`, and
  `addToActivityLog` in the background scripts. The background's
  unguarded calls (`upwork-job-scraper/proposalManager.js:131`, `:215`)
  are taken not to throw.
- The unguarded call in `fillProposalForm`
  (`upwork-job-scraper/proposalAutoFill.js:77`) is modelled, through
  `Form.activityLogDefined`.
- The error texts `AutoSubmit.UndefinedProposalError` and
  `AutoFill.ActivityLogMissing` follow V8's wording. The error text of a
  failed storage call is the fixed `ProposalStore.StorageError`.
- `fetchProposalsFromN8n` and `getEnabledPairs` are not modelled. The enabled
  pairs and each pair's fetched batch (or its failure) are inputs.
- `Date.now` is the parameter `now`. The `toLocaleString` fields
  `storedAtHuman` and `updatedAtHuman` are not kept in the record.
- WHATWG URL parsing is not modelled. The parse result is an input.
- Urls.Canonical: host parsing of the new host name is not modelled. The
  stripped name is taken as written, so IPv4 number forms ("www.0x7f.1"
  would serialise as "127.0.0.1") and IDNA mapping are not captured.
- Basics.Lower: lower-casing folds ASCII letters only, whereas
  `toLowerCase` also folds other letters and can change a string's length
  (U+0130 becomes two characters). The scripts only ask whether the result
  contains ASCII words ("apply", "submit proposal", "submit", "draft"). Case
  folding keeps ASCII letters ASCII, and the only characters outside ASCII
  whose lower case holds an ASCII letter are U+0130 (to "i" and U+0307) and
  the Kelvin sign U+212A (to "k"). The model's matches can differ only for
  texts that spell those words with one of these two characters.
- A property present with the value `undefined` or `null` is treated like
  a missing one (`None`). Object spread would copy it, so the model does
  not capture that case.
- AutoSubmit.FillAndSubmitProposal: `bidAmount` is kept as text, so a
  numeric bid of 0 (falsy) and `toString()` are not modelled.
- ProposalStore.RetainedKeepsNewest: records with equal keys may come in
  any order. The order the engine's sort gives among them is not stated.
- `fillField` in `proposalAutoFill.js` returns early for a missing element
  or an empty value. Its only caller never passes either, so the guard is
  stated once, in `AutoFill.FillProposalForm`, and its inside is not
  modelled.
- In `proposalAutoSubmit.js`, `safeClick`'s return value is ignored by its
  callers and is not modelled. `fillField` is reduced to whether it
  completes.
- A queue entry or scraped job that is `null` is not modelled: such an
  entry makes the source throw when it is read.
