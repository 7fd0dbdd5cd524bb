/** The background submission queue: one decision step per run, enqueueing and completion. */
module SubmissionQueue {
  import opened Basics
  import opened Records
  import opened Storage
  import ProposalStore

  /** The pause between two queue runs when no usable setting is stored. */
  const DefaultDelay: int := 5000

  /** `data.autoSubmissionEnabled !== false`: only a stored `false` disables. */
  predicate IsEnabled(e: Option<bool>) {
    e != Some(false)
  }

  /** `data.autoSubmissionDelay || 5000`. */
  function EffectiveDelay(d: Option<int>): (r: int)
    ensures TruthyNum(d) ==> r == d.value
    ensures !TruthyNum(d) ==> r == DefaultDelay
  {
    if TruthyNum(d) then d.value else DefaultDelay
  }

  /** Auto-submission is off exactly when the stored setting is `false`, whatever else is stored. */
  lemma DisabledOnlyByFalse(e: Option<bool>)
    ensures !IsEnabled(e) <==> e == Some(false)
    ensures IsEnabled(None) && IsEnabled(Some(true))
  {
  }

  /** The default pause is used exactly when the setting is missing or 0. */
  lemma DelayDefaultsOnMissingOrZero(d: Option<int>)
    ensures d.None? || d == Some(0) ==> EffectiveDelay(d) == DefaultDelay
    ensures d.Some? && d.value != 0 ==> EffectiveDelay(d) == d.value
  {
  }

  // ---------------------------------------------------------------------------
  // One run of the queue
  // ---------------------------------------------------------------------------

  /**
   * What one run of the queue decides: nothing to do, drop the head and run
   * again after `delay`, or open the head job with its proposal.
   */
  datatype Decision =
    | Idle
    | Drop(delay: int)
    | Dispatch(job: Job, proposal: Proposal)

  /** Whether the head has to be dropped: no record with its exact URL, or that record already submitted. */
  predicate HeadIsDone(queue: seq<Job>, proposals: seq<Proposal>)
    requires queue != []
  {
    var found := ProposalStore.FindByUrl(proposals, queue[0].jobUrl);
    found.None? || found.value.status == Some(Submitted)
  }

  /** The decision of `processNextJobInQueue` over the values it reads. */
  function Decide(queue: seq<Job>, proposals: seq<Proposal>, enabled: Option<bool>, delay: Option<int>)
    : (d: Decision)
    ensures d.Idle? <==> !IsEnabled(enabled) || queue == []
    ensures d.Drop? <==> IsEnabled(enabled) && queue != [] && HeadIsDone(queue, proposals)
    ensures d.Drop? ==> d.delay == EffectiveDelay(delay)
    ensures d.Dispatch? ==>
      && d.job == queue[0]
      && d.proposal.jobUrl == queue[0].jobUrl
      && d.proposal.status != Some(Submitted)
      && (exists i :: 0 <= i < |proposals| && proposals[i] == d.proposal
            && forall j :: 0 <= j < i ==> proposals[j].jobUrl != queue[0].jobUrl)
  {
    if !IsEnabled(enabled) || queue == [] then Idle
    else
      match ProposalStore.FindByUrl(proposals, queue[0].jobUrl)
      case None => Drop(EffectiveDelay(delay))
      case Some(p) => if p.status == Some(Submitted) then Drop(EffectiveDelay(delay)) else Dispatch(queue[0], p)
  }

  /**
   * `processNextJobInQueue()` up to opening the tab. A failed read ends the
   * run with nothing done; a head that is dropped is removed by writing
   * `queue[1..]`, and only a successful write schedules the next run.
   */
  method ProcessNextJobInQueue(st: LocalStorage) returns (eff: Effect)
    modifies st`submissionQueue
    ensures !st.readable ==> eff == NoEffect && st.submissionQueue == old(st.submissionQueue)
    ensures st.readable ==>
      match Decide(old(st.Queue()), old(st.Proposals()), old(st.autoSubmissionEnabled), old(st.autoSubmissionDelay))
      case Idle => eff == NoEffect && st.submissionQueue == old(st.submissionQueue)
      case Drop(delay) =>
        if st.writable then eff == ScheduleQueue(delay) && st.submissionQueue == Some(old(st.Queue())[1..])
        else eff == NoEffect && st.submissionQueue == old(st.submissionQueue)
      case Dispatch(job, proposal) => eff == OpenTab(job, proposal) && st.submissionQueue == old(st.submissionQueue)
  {
    if !st.readable {
      return NoEffect;
    }
    var queue := st.Queue();
    var enabled := IsEnabled(st.autoSubmissionEnabled);
    var delay := EffectiveDelay(st.autoSubmissionDelay);
    if !enabled || |queue| == 0 {
      return NoEffect;
    }
    var nextJob := queue[0];
    var proposals := ProposalStore.GetAllStoredProposals(st);
    var proposal := ProposalStore.FindByUrl(proposals, nextJob.jobUrl);
    if proposal.None? || proposal.value.status == Some(Submitted) {
      if !st.writable {
        return NoEffect;
      }
      st.submissionQueue := Some(queue[1..]);
      return ScheduleQueue(delay);
    }
    eff := OpenTab(nextJob, proposal.value);
  }

  /**
   * With no processing flag, a second run started before the first has
   * reported opens the same job again with the same proposal.
   */
  method RunTwiceBeforeReport(st: LocalStorage) returns (first: Effect, second: Effect)
    modifies st`submissionQueue
    ensures first.OpenTab? ==> second == first
    ensures st.readable && first.OpenTab? ==> old(st.Queue()) != [] && first.job == old(st.Queue())[0]
  {
    first := ProcessNextJobInQueue(st);
    second := ProcessNextJobInQueue(st);
  }

  /** How the opened tab went: never ready, the injection threw, the message failed, or it was delivered. */
  datatype TabOutcome = NeverReady | InjectionFailed | DeliveryFailed | Delivered

  /**
   * The continuation after the tab has been opened on `job`. The readiness
   * poll has no bound, so a tab that never completes leaves everything as
   * it is and the queue waits forever; a thrown injection and a failed
   * delivery both mark the job failed without a retry.
   */
  method AfterTabOpened(st: LocalStorage, job: Job, outcome: TabOutcome, now: int) returns (eff: Effect)
    modifies st`storedProposals, st`submissionQueue
    ensures outcome == NeverReady || outcome == Delivered ==>
      eff == NoEffect && st.storedProposals == old(st.storedProposals)
      && st.submissionQueue == old(st.submissionQueue)
    ensures outcome == InjectionFailed || outcome == DeliveryFailed ==>
      && st.storedProposals == old(CompletedProposals(st, job.jobUrl, false, now))
      && (st.readable && st.writable ==>
            st.submissionQueue == Some(RemoveUrl(old(st.Queue()), job.jobUrl))
            && eff == ScheduleQueue(EffectiveDelay(st.autoSubmissionDelay)))
      && (!(st.readable && st.writable) ==> st.submissionQueue == old(st.submissionQueue) && eff == NoEffect)
  {
    match outcome
    case NeverReady => eff := NoEffect;
    case Delivered => eff := NoEffect;
    case InjectionFailed => eff := MarkJobAsSubmitted(st, job.jobUrl, false, now);
    case DeliveryFailed => eff := MarkJobAsSubmitted(st, job.jobUrl, false, now);
  }

  // ---------------------------------------------------------------------------
  // Completing a job
  // ---------------------------------------------------------------------------

  /** `queue.filter(j => j.jobUrl !== u)`. */
  function RemoveUrl(q: seq<Job>, u: Option<string>): (r: seq<Job>)
    ensures |r| <= |q|
    ensures forall i :: 0 <= i < |r| ==> r[i].jobUrl != u
    ensures forall j :: j in r <==> j in q && j.jobUrl != u
    decreases |q|
  {
    if q == [] then []
    else (if q[0].jobUrl != u then [q[0]] else []) + RemoveUrl(q[1..], u)
  }

  /** Removing distributes over concatenation, so every kept entry keeps its relative order. */
  lemma {:induction false} RemoveUrlAppend(a: seq<Job>, b: seq<Job>, u: Option<string>)
    ensures RemoveUrl(a + b, u) == RemoveUrl(a, u) + RemoveUrl(b, u)
    decreases |a|
  {
    if a == [] {
      assert a + b == b;
    } else {
      assert (a + b)[0] == a[0];
      assert (a + b)[1..] == a[1..] + b;
      RemoveUrlAppend(a[1..], b, u);
    }
  }

  /** A queue with no entry for `u` is left exactly as it is. */
  lemma {:induction false} RemoveUrlAbsent(q: seq<Job>, u: Option<string>)
    requires forall i :: 0 <= i < |q| ==> q[i].jobUrl != u
    ensures RemoveUrl(q, u) == q
    decreases |q|
  {
    if q != [] {
      RemoveUrlAbsent(q[1..], u);
    }
  }

  /** Removing twice removes nothing more. */
  lemma RemoveUrlIdempotent(q: seq<Job>, u: Option<string>)
    ensures RemoveUrl(RemoveUrl(q, u), u) == RemoveUrl(q, u)
  {
    RemoveUrlAbsent(RemoveUrl(q, u), u);
  }

  /** An entry for `u` in the middle is dropped and its neighbours keep their places. */
  lemma RemoveUrlMiddle(a: seq<Job>, j: Job, b: seq<Job>, u: Option<string>)
    requires j.jobUrl == u
    requires forall i :: 0 <= i < |a| ==> a[i].jobUrl != u
    requires forall i :: 0 <= i < |b| ==> b[i].jobUrl != u
    ensures RemoveUrl(a + [j] + b, u) == a + b
  {
    RemoveUrlAppend(a + [j], b, u);
    RemoveUrlAppend(a, [j], u);
    RemoveUrlAbsent(a, u);
    RemoveUrlAbsent(b, u);
    assert RemoveUrl([j], u) == [] by {
      assert [j][1..] == [];
      assert RemoveUrl([j], u) == [] + RemoveUrl([], u);
    }
    assert a + [] == a;
  }

  /** The status `markJobAsSubmitted(u, success)` records. */
  function CompletionStatus(success: bool): (s: string)
    ensures s == Submitted <==> success
    ensures s == Failed <==> !success
  {
    if success then Submitted else Failed
  }

  /** The stored-proposals key after the status update of `markJobAsSubmitted`. */
  function CompletedProposals(st: LocalStorage, u: Option<string>, success: bool, now: int)
    : (r: Option<seq<Proposal>>)
    reads st
    ensures st.readable && st.writable && ProposalStore.FirstIndexByUrl(st.Proposals(), u).Some? ==>
      r == Some(ProposalStore.WithStatus(st.Proposals(), u, CompletionStatus(success), None, now))
    ensures !(st.readable && st.writable && ProposalStore.FirstIndexByUrl(st.Proposals(), u).Some?) ==>
      r == st.storedProposals
  {
    if st.readable && st.writable && ProposalStore.FirstIndexByUrl(st.Proposals(), u).Some? then
      Some(ProposalStore.WithStatus(st.Proposals(), u, CompletionStatus(success), None, now))
    else st.storedProposals
  }

  /**
   * `markJobAsSubmitted(u, success)`: record "submitted" or "failed" on the
   * first record for `u` (a failure there is swallowed), then remove every
   * queue entry for `u` and schedule the next run. A failed read or write
   * of the queue ends the call with nothing scheduled.
   */
  method MarkJobAsSubmitted(st: LocalStorage, u: Option<string>, success: bool, now: int) returns (eff: Effect)
    modifies st`storedProposals, st`submissionQueue
    ensures st.storedProposals == old(CompletedProposals(st, u, success, now))
    ensures st.readable && st.writable ==>
      st.submissionQueue == Some(RemoveUrl(old(st.Queue()), u))
      && eff == ScheduleQueue(EffectiveDelay(st.autoSubmissionDelay))
    ensures !(st.readable && st.writable) ==> st.submissionQueue == old(st.submissionQueue) && eff == NoEffect
  {
    ProposalStore.UpdateProposalStatus(st, u, CompletionStatus(success), None, now);
    if !st.readable {
      return NoEffect;
    }
    var queue := st.Queue();
    var updatedQueue := RemoveUrl(queue, u);
    if !st.writable {
      return NoEffect;
    }
    st.submissionQueue := Some(updatedQueue);
    var delay := EffectiveDelay(st.autoSubmissionDelay);
    eff := ScheduleQueue(delay);
  }

  // ---------------------------------------------------------------------------
  // Enqueueing jobs that have a pending proposal
  // ---------------------------------------------------------------------------

  /** `proposals.filter(p => p.status === "pending")`. */
  function PendingOf(ps: seq<Proposal>): (r: seq<Proposal>)
    ensures forall i :: 0 <= i < |r| ==> r[i].status == Some(Pending)
    ensures forall p :: p in r <==> p in ps && p.status == Some(Pending)
    decreases |ps|
  {
    if ps == [] then []
    else (if ps[0].status == Some(Pending) then [ps[0]] else []) + PendingOf(ps[1..])
  }

  /** Each pending record is kept as often as it occurs; every other record is dropped. */
  lemma {:induction false} PendingOfCounts(ps: seq<Proposal>, p: Proposal)
    ensures multiset(PendingOf(ps))[p] == if p.status == Some(Pending) then multiset(ps)[p] else 0
    decreases |ps|
  {
    if ps != [] {
      assert ps == [ps[0]] + ps[1..];
      PendingOfCounts(ps[1..], p);
    }
  }

  /** The filter distributes over concatenation, so pending records keep their order. */
  lemma {:induction false} PendingOfAppend(a: seq<Proposal>, b: seq<Proposal>)
    ensures PendingOf(a + b) == PendingOf(a) + PendingOf(b)
    decreases |a|
  {
    if a == [] {
      assert a + b == b;
    } else {
      assert (a + b)[0] == a[0];
      assert (a + b)[1..] == a[1..] + b;
      PendingOfAppend(a[1..], b);
    }
  }

  /**
   * `jobsMap.get(u)` for the map built from the scraped list: when several
   * jobs share a URL the last one wins.
   */
  function LastScrapedByUrl(scraped: seq<ScrapedJob>, u: Option<string>): (r: Option<ScrapedJob>)
    ensures r.Some? ==> exists i :: (0 <= i < |scraped| && scraped[i] == r.value && r.value.url == u
                                      && forall j :: i < j < |scraped| ==> scraped[j].url != u)
    ensures r.None? <==> forall i :: 0 <= i < |scraped| ==> scraped[i].url != u
    decreases |scraped|
  {
    if scraped == [] then None
    else if scraped[|scraped| - 1].url == u then Some(scraped[|scraped| - 1])
    else
      var r := LastScrapedByUrl(scraped[..|scraped| - 1], u);
      assert r.Some? ==> exists i :: (0 <= i < |scraped| - 1 && scraped[i] == r.value && r.value.url == u
                                        && forall j :: i < j < |scraped| ==> scraped[j].url != u);
      r
  }

  /** `existingUrls`: the URLs already in the queue. */
  function QueuedUrls(q: seq<Job>): set<Option<string>> {
    set j | j in q :: j.jobUrl
  }

  /** What the loop pushes for one pending proposal: a job only for a URL not queued and scraped. */
  function JobFor(p: Proposal, current: seq<Job>, scraped: seq<ScrapedJob>, now: int): seq<Job> {
    if p.jobUrl !in QueuedUrls(current) then
      match LastScrapedByUrl(scraped, p.jobUrl)
      case None => []
      case Some(job) => [Job(p.jobUrl, if Truthy(job.title) then job.title else p.jobTitle, now)]
    else []
  }

  /** `newJobs` after the loop has seen every proposal of `pending`. */
  function NewJobs(pending: seq<Proposal>, current: seq<Job>, scraped: seq<ScrapedJob>, now: int): seq<Job>
    decreases |pending|
  {
    if pending == [] then []
    else NewJobs(pending[..|pending| - 1], current, scraped, now) + JobFor(pending[|pending| - 1], current, scraped, now)
  }

  /**
   * Every new job comes from a pending proposal, carries its URL and the
   * scraped title (or the proposal's when the scraped one is empty), is not
   * yet queued, and matches a scraped job.
   */
  lemma {:induction false} NewJobsSound(pending: seq<Proposal>, current: seq<Job>, scraped: seq<ScrapedJob>, now: int)
    ensures forall k :: 0 <= k < |NewJobs(pending, current, scraped, now)| ==>
      var j := NewJobs(pending, current, scraped, now)[k];
      && j.jobUrl !in QueuedUrls(current)
      && j.addedAt == now
      && LastScrapedByUrl(scraped, j.jobUrl).Some?
      && (exists p :: p in pending && p.jobUrl == j.jobUrl
            && j.jobTitle == (var s := LastScrapedByUrl(scraped, j.jobUrl).value;
                              if Truthy(s.title) then s.title else p.jobTitle))
    decreases |pending|
  {
    if pending != [] {
      var init := pending[..|pending| - 1];
      NewJobsSound(init, current, scraped, now);
      assert forall p :: p in init ==> p in pending;
      assert pending[|pending| - 1] in pending;
    }
  }

  /** Every pending proposal whose URL is not queued and is scraped gets a new job. */
  lemma {:induction false} NewJobsComplete(pending: seq<Proposal>, current: seq<Job>, scraped: seq<ScrapedJob>, now: int, i: nat)
    requires i < |pending|
    requires pending[i].jobUrl !in QueuedUrls(current)
    requires LastScrapedByUrl(scraped, pending[i].jobUrl).Some?
    ensures exists k :: (0 <= k < |NewJobs(pending, current, scraped, now)|
                         && NewJobs(pending, current, scraped, now)[k].jobUrl == pending[i].jobUrl)
    decreases |pending|
  {
    var n := |pending| - 1;
    var before := NewJobs(pending[..n], current, scraped, now);
    if i == n {
      assert NewJobs(pending, current, scraped, now)[|before|].jobUrl == pending[i].jobUrl;
    } else {
      NewJobsComplete(pending[..n], current, scraped, now, i);
      var k :| 0 <= k < |before| && before[k].jobUrl == pending[i].jobUrl;
      assert NewJobs(pending, current, scraped, now)[k] == before[k];
    }
  }

  /** New jobs come in the order of their proposals: the result distributes over a split of the input. */
  lemma {:induction false} NewJobsAppend(a: seq<Proposal>, b: seq<Proposal>, current: seq<Job>, scraped: seq<ScrapedJob>, now: int)
    ensures NewJobs(a + b, current, scraped, now) == NewJobs(a, current, scraped, now) + NewJobs(b, current, scraped, now)
    decreases |b|
  {
    if b == [] {
      assert a + b == a;
    } else {
      var n := |b| - 1;
      assert (a + b)[..|a + b| - 1] == a + b[..n];
      NewJobsAppend(a, b[..n], current, scraped, now);
    }
  }

  /**
   * Deduplication is only against the current queue: two pending records
   * for the same scraped URL put two entries for it in the queue.
   */
  lemma DuplicatePendingQueuedTwice(p: Proposal, scraped: seq<ScrapedJob>, now: int)
    requires LastScrapedByUrl(scraped, p.jobUrl).Some?
    ensures |NewJobs([p, p], [], scraped, now)| == 2
    ensures NewJobs([p, p], [], scraped, now)[0].jobUrl == NewJobs([p, p], [], scraped, now)[1].jobUrl
  {
    assert QueuedUrls([]) == {};
    assert [p, p][..1] == [p];
    assert [p][..0] == [];
    assert NewJobs([p], [], scraped, now) == JobFor(p, [], scraped, now);
    assert |JobFor(p, [], scraped, now)| == 1;
  }

  /** Distinct URLs, as a predicate on a queue. */
  predicate UniqueUrls(q: seq<Job>) {
    forall i, j :: 0 <= i < j < |q| ==> q[i].jobUrl != q[j].jobUrl
  }

  /** Distinct URLs among proposals. */
  predicate UniqueProposalUrls(ps: seq<Proposal>) {
    forall i, j :: 0 <= i < j < |ps| ==> ps[i].jobUrl != ps[j].jobUrl
  }

  /** With distinct pending URLs, a queue without duplicates stays without duplicates. */
  lemma {:induction false} EnqueueKeepsUnique(pending: seq<Proposal>, current: seq<Job>, scraped: seq<ScrapedJob>, now: int)
    requires UniqueUrls(current)
    requires UniqueProposalUrls(pending)
    ensures UniqueUrls(current + NewJobs(pending, current, scraped, now))
    decreases |pending|
  {
    var q := current + NewJobs(pending, current, scraped, now);
    if pending != [] {
      var n := |pending| - 1;
      var init := pending[..n];
      assert UniqueProposalUrls(init) by {
        forall i, j | 0 <= i < j < |init| ensures init[i].jobUrl != init[j].jobUrl {
          assert init[i] == pending[i] && init[j] == pending[j];
        }
      }
      EnqueueKeepsUnique(init, current, scraped, now);
      var before := current + NewJobs(init, current, scraped, now);
      var added := JobFor(pending[n], current, scraped, now);
      assert q == before + added;
      if added != [] {
        NewJobsSound(init, current, scraped, now);
        forall i | 0 <= i < |before| ensures before[i].jobUrl != added[0].jobUrl {
          if i < |current| {
            assert current[i] in current;
          } else {
            var k := i - |current|;
            var j := NewJobs(init, current, scraped, now)[k];
            assert before[i] == j;
            var p :| p in init && p.jobUrl == j.jobUrl;
            var m :| 0 <= m < n && init[m] == p;
            assert pending[m] == p;
          }
        }
      }
    }
  }

  /** The loop of `addJobsToSubmissionQueue` that builds `newJobs`. */
  method CollectNewJobs(pending: seq<Proposal>, currentQueue: seq<Job>, scraped: seq<ScrapedJob>, now: int)
    returns (newJobs: seq<Job>)
    ensures newJobs == NewJobs(pending, currentQueue, scraped, now)
  {
    var existingUrls := QueuedUrls(currentQueue);
    newJobs := [];
    for i := 0 to |pending|
      invariant newJobs == NewJobs(pending[..i], currentQueue, scraped, now)
    {
      var proposal := pending[i];
      if proposal.jobUrl !in existingUrls {
        var job := LastScrapedByUrl(scraped, proposal.jobUrl);
        if job.Some? {
          var title := if Truthy(job.value.title) then job.value.title else proposal.jobTitle;
          newJobs := newJobs + [Job(proposal.jobUrl, title, now)];
        }
      }
      assert pending[..i + 1][..i] == pending[..i];
    }
    assert pending[..|pending|] == pending;
  }

  /** The queue `addJobsToSubmissionQueue` would write from this state. */
  function EnqueuedQueue(st: LocalStorage, now: int): seq<Job>
    reads st
  {
    st.Queue() + NewJobs(PendingOf(st.Proposals()), st.Queue(), st.scrapedJobs.GetOr([]), now)
  }

  /** Whether that call has anything to add. */
  predicate AddsJobs(st: LocalStorage, now: int)
    reads st
  {
    NewJobs(PendingOf(st.Proposals()), st.Queue(), st.scrapedJobs.GetOr([]), now) != []
  }

  /**
   * `addJobsToSubmissionQueue()`: append the new jobs to the queue, leaving
   * the existing entries as they were, and start a run only when the queue
   * was empty. A failed read (no proposals come back) or a failed write
   * leaves the queue as it is.
   */
  method AddJobsToSubmissionQueue(st: LocalStorage, now: int) returns (eff: Effect)
    modifies st`submissionQueue
    ensures st.readable && st.writable && old(AddsJobs(st, now)) ==>
      st.submissionQueue == Some(old(EnqueuedQueue(st, now)))
      && eff == (if old(st.Queue()) == [] then RunQueueNow else NoEffect)
    ensures !(st.readable && st.writable && old(AddsJobs(st, now))) ==>
      st.submissionQueue == old(st.submissionQueue) && eff == NoEffect
  {
    var proposals := ProposalStore.GetAllStoredProposals(st);
    var pendingProposals := PendingOf(proposals);
    if |pendingProposals| == 0 {
      return NoEffect;
    }
    var currentQueue := st.Queue();
    var scrapedJobs := st.scrapedJobs.GetOr([]);
    var newJobs := CollectNewJobs(pendingProposals, currentQueue, scrapedJobs, now);
    if |newJobs| > 0 {
      if !st.writable {
        return NoEffect;
      }
      st.submissionQueue := Some(currentQueue + newJobs);
      eff := if |currentQueue| == 0 then RunQueueNow else NoEffect;
    } else {
      eff := NoEffect;
    }
  }
}
