/** The proposal store of the background script: merging, lookup, status updates, polling. */
module ProposalStore {
  import opened Basics
  import opened Records
  import opened Storage

  /** The store keeps at most this many proposals. */
  const MaxStored: nat := 200

  /** The message of a rejected `chrome.storage.local` call. */
  const StorageError: string := "storage operation failed"

  // ---------------------------------------------------------------------------
  // Lookup by job URL (exact equality, as `===`)
  // ---------------------------------------------------------------------------

  /** `ps.findIndex(p => p.jobUrl === u)`, with `None` for -1. */
  function FirstIndexByUrl(ps: seq<Proposal>, u: Option<string>): (r: Option<nat>)
    ensures r.Some? ==> r.value < |ps| && ps[r.value].jobUrl == u
    ensures r.Some? ==> forall j :: 0 <= j < r.value ==> ps[j].jobUrl != u
    ensures r.None? ==> forall j :: 0 <= j < |ps| ==> ps[j].jobUrl != u
  {
    if ps == [] then None
    else if ps[0].jobUrl == u then Some(0)
    else match FirstIndexByUrl(ps[1..], u)
      case None => None
      case Some(k) => Some(k + 1)
  }

  /** `ps.find(p => p.jobUrl === u) || null`. */
  function FindByUrl(ps: seq<Proposal>, u: Option<string>): (r: Option<Proposal>)
    ensures r.Some? <==> exists i :: 0 <= i < |ps| && ps[i].jobUrl == u
    ensures r.Some? ==> r.value.jobUrl == u
    ensures r.Some? ==> exists i :: 0 <= i < |ps| && ps[i] == r.value
                              && forall j :: 0 <= j < i ==> ps[j].jobUrl != u
  {
    match FirstIndexByUrl(ps, u)
    case None => None
    case Some(k) => Some(ps[k])
  }

  /** `getAllStoredProposals()`: a failed read and a missing key both give `[]`. */
  function GetAllStoredProposals(st: LocalStorage): (ps: seq<Proposal>)
    reads st
    ensures !st.readable ==> ps == []
    ensures st.readable && st.storedProposals.None? ==> ps == []
    ensures st.readable && st.storedProposals.Some? ==> ps == st.storedProposals.value
  {
    if st.readable then st.Proposals() else []
  }

  /** `getProposalForJob(u)`: the first stored record whose `jobUrl` is exactly `u`. */
  function GetProposalForJob(st: LocalStorage, u: Option<string>): (r: Option<Proposal>)
    reads st
    ensures r.Some? ==> st.readable && r.value.jobUrl == u && r.value in st.Proposals()
    ensures r.Some? ==> exists i :: 0 <= i < |st.Proposals()| && st.Proposals()[i] == r.value
                              && forall j :: 0 <= j < i ==> st.Proposals()[j].jobUrl != u
    ensures r.None? ==> !st.readable || forall p :: p in st.Proposals() ==> p.jobUrl != u
  {
    FindByUrl(GetAllStoredProposals(st), u)
  }

  // ---------------------------------------------------------------------------
  // Merging a fetched batch into the stored list
  // ---------------------------------------------------------------------------

  /** An input is stored only when it has a truthy `jobUrl` and `proposalText`. */
  predicate IsValidInput(p: Proposal) {
    Truthy(p.jobUrl) && Truthy(p.proposalText)
  }

  /** One property of `{...current, ...incoming}`: the incoming value wins when present. */
  function Pick<T>(incoming: Option<T>, current: Option<T>): Option<T> {
    if incoming.Some? then incoming else current
  }

  /** `{...r, ...p, updatedAt: now}`. */
  function Overlay(r: Proposal, p: Proposal, now: int): Proposal {
    Proposal(
      jobUrl := Pick(p.jobUrl, r.jobUrl),
      jobId := Pick(p.jobId, r.jobId),
      jobTitle := Pick(p.jobTitle, r.jobTitle),
      proposalText := Pick(p.proposalText, r.proposalText),
      bidAmount := Pick(p.bidAmount, r.bidAmount),
      estimatedHours := Pick(p.estimatedHours, r.estimatedHours),
      screeningAnswers := Pick(p.screeningAnswers, r.screeningAnswers),
      status := Pick(p.status, r.status),
      storedAt := Pick(p.storedAt, r.storedAt),
      updatedAt := Some(now),
      statusUpdatedAt := Pick(p.statusUpdatedAt, r.statusUpdatedAt),
      errorMessage := Pick(p.errorMessage, r.errorMessage))
  }

  /** `{...p, storedAt: now, status: "pending"}`. */
  function AsNew(p: Proposal, now: int): Proposal {
    p.(storedAt := Some(now), status := Some(Pending))
  }

  /**
   * One turn of the merge loop. `pre` is the list read from the store (the
   * only list presence is checked against); `acc` is the list being built.
   */
  function Step(pre: seq<Proposal>, acc: seq<Proposal>, p: Proposal, now: int): seq<Proposal> {
    if !IsValidInput(p) then acc
    else if FirstIndexByUrl(pre, p.jobUrl).Some? then
      match FirstIndexByUrl(acc, p.jobUrl)
      case None => acc
      case Some(k) => acc[k := Overlay(acc[k], p, now)]
    else acc + [AsNew(p, now)]
  }

  /** The list after the merge loop has processed all of `ps`. */
  function Merged(pre: seq<Proposal>, ps: seq<Proposal>, now: int): seq<Proposal>
    decreases |ps|
  {
    if ps == [] then pre
    else Step(pre, Merged(pre, ps[..|ps| - 1], now), ps[|ps| - 1], now)
  }

  /** Whether input `p` is appended as a new record. */
  predicate IsNewInput(pre: seq<Proposal>, p: Proposal) {
    IsValidInput(p) && FirstIndexByUrl(pre, p.jobUrl).None?
  }

  /** The number of inputs the merge loop appends. */
  function NewCount(pre: seq<Proposal>, ps: seq<Proposal>): nat
    decreases |ps|
  {
    if ps == [] then 0
    else NewCount(pre, ps[..|ps| - 1]) + (if IsNewInput(pre, ps[|ps| - 1]) then 1 else 0)
  }

  /** The records the merge loop appends, in input order. */
  function NewRecords(pre: seq<Proposal>, ps: seq<Proposal>, now: int): seq<Proposal>
    decreases |ps|
  {
    if ps == [] then []
    else NewRecords(pre, ps[..|ps| - 1], now)
         + (if IsNewInput(pre, ps[|ps| - 1]) then [AsNew(ps[|ps| - 1], now)] else [])
  }

  /** Record `r` after every valid input of `ps` whose URL is `u` has been laid over it, in order. */
  function OverlayWith(r: Proposal, u: Option<string>, ps: seq<Proposal>, now: int): Proposal
    decreases |ps|
  {
    if ps == [] then r
    else
      var before := OverlayWith(r, u, ps[..|ps| - 1], now);
      var p := ps[|ps| - 1];
      if IsValidInput(p) && p.jobUrl == u then Overlay(before, p, now) else before
  }

  /** The inputs that are valid, in order. */
  function ValidOnly(ps: seq<Proposal>): seq<Proposal>
    decreases |ps|
  {
    if ps == [] then []
    else ValidOnly(ps[..|ps| - 1]) + (if IsValidInput(ps[|ps| - 1]) then [ps[|ps| - 1]] else [])
  }

  /** Two lists whose first |pre| records carry the same URLs find the same first index for a URL of `pre`. */
  lemma FirstIndexAgrees(pre: seq<Proposal>, acc: seq<Proposal>, u: Option<string>)
    requires |pre| <= |acc|
    requires forall i :: 0 <= i < |pre| ==> acc[i].jobUrl == pre[i].jobUrl
    requires FirstIndexByUrl(pre, u).Some?
    ensures FirstIndexByUrl(acc, u) == FirstIndexByUrl(pre, u)
  {
    var k := FirstIndexByUrl(pre, u).value;
    assert acc[k].jobUrl == u;
    var k' := FirstIndexByUrl(acc, u).value;
    assert pre[k'].jobUrl == u;
  }

  /**
   * The shape of the merged list: the stored records keep their place and
   * their URLs, and behind them come the new records, one per input that is
   * valid and whose URL the stored list lacks.
   */
  lemma {:induction false} MergedShape(pre: seq<Proposal>, ps: seq<Proposal>, now: int)
    ensures |Merged(pre, ps, now)| == |pre| + NewCount(pre, ps)
    ensures NewCount(pre, ps) == |NewRecords(pre, ps, now)|
    ensures forall i :: 0 <= i < |pre| ==> Merged(pre, ps, now)[i].jobUrl == pre[i].jobUrl
    ensures Merged(pre, ps, now)[|pre|..] == NewRecords(pre, ps, now)
    decreases |ps|
  {
    if ps != [] {
      var init := ps[..|ps| - 1];
      var p := ps[|ps| - 1];
      MergedShape(pre, init, now);
      var acc := Merged(pre, init, now);
      if IsValidInput(p) && FirstIndexByUrl(pre, p.jobUrl).Some? {
        FirstIndexAgrees(pre, acc, p.jobUrl);
        var k := FirstIndexByUrl(acc, p.jobUrl).value;
        assert Merged(pre, ps, now) == acc[k := Overlay(acc[k], p, now)];
        assert Merged(pre, ps, now)[|pre|..] == acc[|pre|..];
      } else if IsValidInput(p) {
        assert Merged(pre, ps, now) == acc + [AsNew(p, now)];
        assert (acc + [AsNew(p, now)])[|pre|..] == acc[|pre|..] + [AsNew(p, now)];
      }
    }
  }

  /**
   * Each stored record after the merge: the first record with a given URL
   * has every valid input with that URL laid over it in input order; every
   * other stored record is unchanged.
   */
  lemma {:induction false} MergedExisting(pre: seq<Proposal>, ps: seq<Proposal>, now: int, i: nat)
    requires i < |pre|
    ensures i < |Merged(pre, ps, now)|
    ensures Merged(pre, ps, now)[i] ==
      if FirstIndexByUrl(pre, pre[i].jobUrl) == Some(i) then OverlayWith(pre[i], pre[i].jobUrl, ps, now)
      else pre[i]
    decreases |ps|
  {
    MergedShape(pre, ps, now);
    if ps != [] {
      var init := ps[..|ps| - 1];
      var p := ps[|ps| - 1];
      MergedExisting(pre, init, now, i);
      MergedShape(pre, init, now);
      var acc := Merged(pre, init, now);
      if IsValidInput(p) && FirstIndexByUrl(pre, p.jobUrl).Some? {
        FirstIndexAgrees(pre, acc, p.jobUrl);
        var k := FirstIndexByUrl(pre, p.jobUrl).value;
        assert Merged(pre, ps, now) == acc[k := Overlay(acc[k], p, now)];
        if i == k {
          assert pre[i].jobUrl == p.jobUrl;
        } else if pre[i].jobUrl == p.jobUrl {
          assert FirstIndexByUrl(pre, pre[i].jobUrl) != Some(i);
        }
      } else if IsValidInput(p) {
        assert Merged(pre, ps, now) == acc + [AsNew(p, now)];
        assert pre[i].jobUrl != p.jobUrl;
      }
    }
  }

  /** Inputs without a truthy `jobUrl` or `proposalText` are neither stored nor counted. */
  lemma {:induction false} MergeIgnoresInvalid(pre: seq<Proposal>, ps: seq<Proposal>, now: int)
    ensures Merged(pre, ps, now) == Merged(pre, ValidOnly(ps), now)
    ensures NewCount(pre, ps) == NewCount(pre, ValidOnly(ps))
    decreases |ps|
  {
    if ps != [] {
      var init := ps[..|ps| - 1];
      var p := ps[|ps| - 1];
      MergeIgnoresInvalid(pre, init, now);
      if IsValidInput(p) {
        var v := ValidOnly(init) + [p];
        assert ValidOnly(ps) == v;
        assert v[..|v| - 1] == ValidOnly(init);
        assert Merged(pre, v, now) == Step(pre, Merged(pre, ValidOnly(init), now), p, now);
        assert NewCount(pre, v) == NewCount(pre, ValidOnly(init)) + (if IsNewInput(pre, p) then 1 else 0);
      } else {
        assert ValidOnly(ps) == ValidOnly(init);
        assert Merged(pre, ps, now) == Merged(pre, init, now);
      }
    }
  }

  /**
   * Presence is checked against the stored list only: two new inputs with
   * the same URL in one batch are both appended and both counted.
   */
  lemma SameUrlTwiceInOneBatch(pre: seq<Proposal>, p: Proposal, now: int)
    requires IsNewInput(pre, p)
    ensures Merged(pre, [p, p], now) == pre + [AsNew(p, now), AsNew(p, now)]
    ensures NewCount(pre, [p, p]) == 2
  {
    assert [p, p][..1] == [p];
    assert [p][..0] == [];
    assert Merged(pre, [p], now) == Step(pre, pre, p, now) == pre + [AsNew(p, now)];
    assert NewCount(pre, [p]) == 1;
    assert Merged(pre, [p, p], now) == Step(pre, pre + [AsNew(p, now)], p, now);
  }

  /** Laying the same input over a record twice gives the record it gives once. */
  lemma OverlayIdempotent(r: Proposal, p: Proposal, now: int)
    ensures Overlay(Overlay(r, p, now), p, now) == Overlay(r, p, now)
  {
  }

  /** The merge loop of `storeProposals`, over the list read from the store. */
  method MergeIncoming(existing: seq<Proposal>, incoming: seq<Proposal>, now: int)
    returns (merged: seq<Proposal>, newCount: nat)
    ensures merged == Merged(existing, incoming, now)
    ensures newCount == NewCount(existing, incoming)
  {
    merged := existing;
    newCount := 0;
    for i := 0 to |incoming|
      invariant merged == Merged(existing, incoming[..i], now)
      invariant newCount == NewCount(existing, incoming[..i])
    {
      var p := incoming[i];
      assert incoming[..i + 1][..i] == incoming[..i];
      if !IsValidInput(p) {
        continue;
      }
      if FirstIndexByUrl(existing, p.jobUrl).Some? {
        var index := FirstIndexByUrl(merged, p.jobUrl);
        if index.Some? {
          merged := merged[index.value := Overlay(merged[index.value], p, now)];
        }
      } else {
        merged := merged + [AsNew(p, now)];
        newCount := newCount + 1;
      }
    }
    assert incoming[..|incoming|] == incoming;
  }

  // ---------------------------------------------------------------------------
  // Sorting by recency and truncating to MaxStored
  // ---------------------------------------------------------------------------

  /** `p.storedAt || p.updatedAt || 0`. */
  function SortKey(p: Proposal): int {
    if TruthyNum(p.storedAt) then p.storedAt.value
    else if TruthyNum(p.updatedAt) then p.updatedAt.value
    else 0
  }

  predicate SortedDesc(s: seq<Proposal>) {
    forall i, j :: 0 <= i < j < |s| ==> SortKey(s[i]) >= SortKey(s[j])
  }

  /** Inserts `x` into a list sorted by descending key, before the first key not above its own. */
  function Insert(x: Proposal, t: seq<Proposal>): seq<Proposal>
    decreases |t|
  {
    if t == [] || SortKey(x) >= SortKey(t[0]) then [x] + t
    else [t[0]] + Insert(x, t[1..])
  }

  /** The comparator sort `(a, b) => key(b) - key(a)`: descending by `SortKey`. */
  function SortDesc(s: seq<Proposal>): seq<Proposal>
    decreases |s|
  {
    if s == [] then [] else Insert(s[0], SortDesc(s[1..]))
  }

  /** A record whose key is at least every key of a sorted list can go in front of it. */
  lemma ConsSorted(y: Proposal, u: seq<Proposal>)
    requires SortedDesc(u)
    requires forall z :: z in u ==> SortKey(y) >= SortKey(z)
    ensures SortedDesc([y] + u)
  {
    var r := [y] + u;
    forall i, j | 0 <= i < j < |r| ensures SortKey(r[i]) >= SortKey(r[j]) {
      assert r[j] == u[j - 1];
      if i > 0 {
        assert r[i] == u[i - 1];
      } else {
        assert u[j - 1] in u;
      }
    }
  }

  lemma TailSorted(t: seq<Proposal>)
    requires t != [] && SortedDesc(t)
    ensures SortedDesc(t[1..])
    ensures forall z :: z in t[1..] ==> SortKey(t[0]) >= SortKey(z)
  {
    forall i, j | 0 <= i < j < |t[1..]| ensures SortKey(t[1..][i]) >= SortKey(t[1..][j]) {
      assert t[1..][i] == t[i + 1] && t[1..][j] == t[j + 1];
    }
    forall z | z in t[1..] ensures SortKey(t[0]) >= SortKey(z) {
      var j :| 0 <= j < |t[1..]| && t[1..][j] == z;
      assert t[j + 1] == z;
    }
  }

  lemma {:induction false} InsertSorted(x: Proposal, t: seq<Proposal>)
    requires SortedDesc(t)
    ensures SortedDesc(Insert(x, t))
    ensures multiset(Insert(x, t)) == multiset(t) + multiset{x}
    decreases |t|
  {
    if t == [] {
    } else if SortKey(x) >= SortKey(t[0]) {
      TailSorted(t);
      assert forall z :: z in t ==> z == t[0] || z in t[1..] by {
        assert t == [t[0]] + t[1..];
      }
      ConsSorted(x, t);
    } else {
      TailSorted(t);
      var u := Insert(x, t[1..]);
      InsertSorted(x, t[1..]);
      assert t == [t[0]] + t[1..];
      forall z | z in u ensures SortKey(t[0]) >= SortKey(z) {
        assert z in multiset(u);
      }
      ConsSorted(t[0], u);
    }
  }

  /** The sort orders by descending key and only rearranges its input. */
  lemma {:induction false} SortDescCorrect(s: seq<Proposal>)
    ensures SortedDesc(SortDesc(s))
    ensures multiset(SortDesc(s)) == multiset(s)
    decreases |s|
  {
    if s != [] {
      SortDescCorrect(s[1..]);
      InsertSorted(s[0], SortDesc(s[1..]));
      assert s == [s[0]] + s[1..];
    }
  }

  /** How many records survive truncation. */
  function KeptLength(m: seq<Proposal>): nat {
    if |m| <= MaxStored then |m| else MaxStored
  }

  /** `sorted.slice(0, 200)`. */
  function Retained(m: seq<Proposal>): seq<Proposal> {
    assert |SortDesc(m)| == |m| by { SortDescCorrect(m); assert |multiset(SortDesc(m))| == |multiset(m)|; }
    SortDesc(m)[..KeptLength(m)]
  }

  /** The records truncation drops. */
  function Evicted(m: seq<Proposal>): seq<Proposal> {
    assert |SortDesc(m)| == |m| by { SortDescCorrect(m); assert |multiset(SortDesc(m))| == |multiset(m)|; }
    SortDesc(m)[KeptLength(m)..]
  }

  /**
   * Truncation keeps the most recently touched records: at most MaxStored
   * of them, sorted by descending key, each key at least that of every
   * dropped record, kept and dropped together being the merged list.
   */
  lemma RetainedKeepsNewest(m: seq<Proposal>)
    ensures |Retained(m)| <= MaxStored
    ensures |Retained(m)| == if |m| <= MaxStored then |m| else MaxStored
    ensures SortedDesc(Retained(m))
    ensures multiset(Retained(m)) + multiset(Evicted(m)) == multiset(m)
    ensures forall i, j :: 0 <= i < |Retained(m)| && 0 <= j < |Evicted(m)|
              ==> SortKey(Retained(m)[i]) >= SortKey(Evicted(m)[j])
    ensures |m| <= MaxStored ==> Evicted(m) == []
  {
    SortDescCorrect(m);
    var s := SortDesc(m);
    var n := KeptLength(m);
    assert |multiset(s)| == |multiset(m)|;
    assert s == s[..n] + s[n..];
    assert multiset(s) == multiset(s[..n]) + multiset(s[n..]);
    forall i, j | 0 <= i < |Retained(m)| && 0 <= j < |Evicted(m)|
      ensures SortKey(Retained(m)[i]) >= SortKey(Evicted(m)[j])
    {
      assert Retained(m)[i] == s[i] && Evicted(m)[j] == s[n + j];
    }
  }

  /** The persisted list and the returned counts of `storeProposals`. */
  function StoreResult(existing: seq<Proposal>, incoming: seq<Proposal>, now: int): (r: (seq<Proposal>, Counts))
    ensures |r.0| <= MaxStored
    ensures r.1.totalCount == |r.0|
    ensures r.1.newCount == NewCount(existing, incoming)
    ensures r.0 == Retained(Merged(existing, incoming, now))
  {
    var kept := Retained(Merged(existing, incoming, now));
    RetainedKeepsNewest(Merged(existing, incoming, now));
    (kept, Counts(NewCount(existing, incoming), |kept|))
  }

  /**
   * `storeProposals(incoming)`: read, merge, sort, truncate, write. A failed
   * read or write is rethrown, and then nothing has been written.
   */
  method StoreProposals(st: LocalStorage, incoming: seq<Proposal>, now: int) returns (r: Result<Counts>)
    modifies st`storedProposals
    ensures st.readable && st.writable ==>
      var (kept, counts) := StoreResult(old(st.Proposals()), incoming, now);
      r == Ok(counts) && st.storedProposals == Some(kept)
    ensures !(st.readable && st.writable) ==> r == Err(StorageError) && st.storedProposals == old(st.storedProposals)
  {
    if !st.readable {
      return Err(StorageError);
    }
    var existing := st.Proposals();
    var merged, newCount := MergeIncoming(existing, incoming, now);
    var sorted := Retained(merged);
    if !st.writable {
      return Err(StorageError);
    }
    st.storedProposals := Some(sorted);
    r := Ok(Counts(newCount, |sorted|));
  }

  // ---------------------------------------------------------------------------
  // Status updates
  // ---------------------------------------------------------------------------

  /** The list after `updateProposalStatus(u, status, err)` has changed the first match in place. */
  function WithStatus(ps: seq<Proposal>, u: Option<string>, status: string, err: Option<string>, now: int)
    : (r: seq<Proposal>)
    ensures |r| == |ps|
    ensures FirstIndexByUrl(ps, u).None? ==> r == ps
    ensures FirstIndexByUrl(ps, u).Some? ==>
      var k := FirstIndexByUrl(ps, u).value;
      && r[k].status == Some(status)
      && r[k].statusUpdatedAt == Some(now)
      && r[k].errorMessage == (if Truthy(err) then err else ps[k].errorMessage)
      && r[k].(status := ps[k].status, statusUpdatedAt := ps[k].statusUpdatedAt,
               errorMessage := ps[k].errorMessage) == ps[k]
      && forall i :: 0 <= i < |ps| && i != k ==> r[i] == ps[i]
  {
    match FirstIndexByUrl(ps, u)
    case None => ps
    case Some(k) =>
      var p := ps[k];
      ps[k := p.(status := Some(status), statusUpdatedAt := Some(now),
                 errorMessage := if Truthy(err) then err else p.errorMessage)]
  }

  /**
   * `updateProposalStatus(u, status, err)`. Nothing is written when no record
   * matches; a failed read or write is swallowed and leaves the store as it was.
   */
  method UpdateProposalStatus(st: LocalStorage, u: Option<string>, status: string, err: Option<string>, now: int)
    modifies st`storedProposals
    ensures st.readable && st.writable && FirstIndexByUrl(old(st.Proposals()), u).Some? ==>
      st.storedProposals == Some(WithStatus(old(st.Proposals()), u, status, err, now))
    ensures !(st.readable && st.writable && FirstIndexByUrl(old(st.Proposals()), u).Some?) ==>
      st.storedProposals == old(st.storedProposals)
  {
    var proposals := GetAllStoredProposals(st);
    var index := FirstIndexByUrl(proposals, u);
    if index.Some? && st.writable {
      st.storedProposals := Some(WithStatus(proposals, u, status, err, now));
    }
  }

  // ---------------------------------------------------------------------------
  // Polling every configured webhook
  // ---------------------------------------------------------------------------

  /** An enabled integration pair, of which only the name and the webhook URL are read. */
  datatype Webhook = Webhook(name: string, webhookUrl: Option<string>)

  /** `pair.webhookUrl && pair.webhookUrl.trim()`. */
  predicate HasWebhook(w: Webhook) {
    Truthy(w.webhookUrl) && Trim(w.webhookUrl.value) != ""
  }

  /** The totals of the polling loop, given each pair's store result (`None`: skipped or failed). */
  function Aggregate(outs: seq<Option<Counts>>): Counts
    decreases |outs|
  {
    if outs == [] then Counts(0, 0)
    else
      var before := Aggregate(outs[..|outs| - 1]);
      match outs[|outs| - 1]
      case None => before
      case Some(c) => Counts(before.newCount + c.newCount, c.totalCount)
  }

  /** The new-record count of one pair's result. */
  function NewOf(o: Option<Counts>): nat {
    if o.Some? then o.value.newCount else 0
  }

  /** The plain sum of the pairs' new-record counts. */
  function SumNew(outs: seq<Option<Counts>>): nat
    decreases |outs|
  {
    if outs == [] then 0 else NewOf(outs[0]) + SumNew(outs[1..])
  }

  lemma {:induction false} SumNewSnoc(outs: seq<Option<Counts>>, o: Option<Counts>)
    ensures SumNew(outs + [o]) == SumNew(outs) + NewOf(o)
    decreases |outs|
  {
    if outs == [] {
      assert [o][1..] == [];
    } else {
      assert (outs + [o])[1..] == outs[1..] + [o];
      SumNewSnoc(outs[1..], o);
    }
  }

  /** `newCount` is the sum over the pairs whose fetch and store succeeded. */
  lemma {:induction false} AggregateNewIsSum(outs: seq<Option<Counts>>)
    ensures Aggregate(outs).newCount == SumNew(outs)
    decreases |outs|
  {
    if outs != [] {
      var init := outs[..|outs| - 1];
      AggregateNewIsSum(init);
      SumNewSnoc(init, outs[|outs| - 1]);
      assert init + [outs[|outs| - 1]] == outs;
    }
  }

  /**
   * `totalCount` is that of the last successful pair; with no successful
   * pair both counts are 0. A failing pair after it changes nothing.
   */
  lemma {:induction false} AggregateTotalIsLast(outs: seq<Option<Counts>>)
    ensures (forall i :: 0 <= i < |outs| ==> outs[i].None?) ==> Aggregate(outs) == Counts(0, 0)
    ensures forall k :: 0 <= k < |outs| && outs[k].Some? && (forall i :: k < i < |outs| ==> outs[i].None?)
              ==> Aggregate(outs).totalCount == outs[k].value.totalCount
    decreases |outs|
  {
    if outs != [] {
      var init := outs[..|outs| - 1];
      AggregateTotalIsLast(init);
      forall k | 0 <= k < |outs| && outs[k].Some? && (forall i :: k < i < |outs| ==> outs[i].None?)
        ensures Aggregate(outs).totalCount == outs[k].value.totalCount
      {
        if k < |outs| - 1 {
          assert init[k] == outs[k];
          assert forall i :: k < i < |init| ==> init[i] == outs[i];
        }
      }
      if forall i :: 0 <= i < |outs| ==> outs[i].None? {
        assert forall i :: 0 <= i < |init| ==> init[i] == outs[i];
      }
    }
  }

  /** The fetched batch of each pair whose webhook is set and whose fetch succeeded, in pair order. */
  function Batches(hooks: seq<Webhook>, fetched: seq<Option<seq<Proposal>>>): seq<seq<Proposal>>
    requires |fetched| == |hooks|
    decreases |hooks|
  {
    if hooks == [] then []
    else
      var n := |hooks| - 1;
      Batches(hooks[..n], fetched[..n])
      + (if HasWebhook(hooks[n]) && fetched[n].Some? then [fetched[n].value] else [])
  }

  /** The stored list after storing each batch in turn. */
  function StoredAfter(existing: seq<Proposal>, batches: seq<seq<Proposal>>, now: int): seq<Proposal>
    decreases |batches|
  {
    if batches == [] then existing
    else StoreResult(StoredAfter(existing, batches[..|batches| - 1], now), batches[|batches| - 1], now).0
  }

  /** The counts pair i's store returns: its batch stored over what the earlier pairs left behind. */
  function PairCounts(existing: seq<Proposal>, hooks: seq<Webhook>, fetched: seq<Option<seq<Proposal>>>,
                      i: nat, now: int): Counts
    requires |fetched| == |hooks| && i < |hooks| && fetched[i].Some?
  {
    StoreResult(StoredAfter(existing, Batches(hooks[..i], fetched[..i]), now), fetched[i].value, now).1
  }

  /** Pair j succeeded exactly when its webhook is set, its fetch succeeded and the store works (`ok`). */
  predicate SucceededWhen(hooks: seq<Webhook>, fetched: seq<Option<seq<Proposal>>>, outs: seq<Option<Counts>>, ok: bool)
    requires |fetched| == |hooks| && |outs| <= |hooks|
  {
    forall j :: 0 <= j < |outs| ==> (outs[j].Some? <==> HasWebhook(hooks[j]) && fetched[j].Some? && ok)
  }

  lemma SucceededWhenSnoc(hooks: seq<Webhook>, fetched: seq<Option<seq<Proposal>>>,
                          outs: seq<Option<Counts>>, o: Option<Counts>, ok: bool)
    requires |fetched| == |hooks| && |outs| < |hooks|
    requires SucceededWhen(hooks, fetched, outs, ok)
    requires o.Some? <==> HasWebhook(hooks[|outs|]) && fetched[|outs|].Some? && ok
    ensures SucceededWhen(hooks, fetched, outs + [o], ok)
  {
    var outs' := outs + [o];
    forall j | 0 <= j < |outs'|
      ensures outs'[j].Some? <==> HasWebhook(hooks[j]) && fetched[j].Some? && ok
    {
      if j < |outs| {
        assert outs'[j] == outs[j];
      }
    }
  }

  /** Every recorded success carries the counts its pair's store returned. */
  predicate CountsTied(existing: seq<Proposal>, hooks: seq<Webhook>, fetched: seq<Option<seq<Proposal>>>,
                       outs: seq<Option<Counts>>, now: int)
    requires |fetched| == |hooks| && |outs| <= |hooks|
  {
    forall j :: 0 <= j < |outs| && outs[j].Some? ==>
      fetched[j].Some? && outs[j].value == PairCounts(existing, hooks, fetched, j, now)
  }

  lemma CountsTiedSnoc(existing: seq<Proposal>, hooks: seq<Webhook>, fetched: seq<Option<seq<Proposal>>>,
                       outs: seq<Option<Counts>>, o: Option<Counts>, now: int)
    requires |fetched| == |hooks| && |outs| < |hooks|
    requires CountsTied(existing, hooks, fetched, outs, now)
    requires o.Some? ==> fetched[|outs|].Some? && o.value == PairCounts(existing, hooks, fetched, |outs|, now)
    ensures CountsTied(existing, hooks, fetched, outs + [o], now)
  {
    var outs' := outs + [o];
    forall j | 0 <= j < |outs'| && outs'[j].Some?
      ensures fetched[j].Some? && outs'[j].value == PairCounts(existing, hooks, fetched, j, now)
    {
      if j < |outs| {
        assert outs'[j] == outs[j];
      }
    }
  }

  /**
   * `checkForNewProposals()` over the enabled pairs `hooks`; `fetched[i]` is
   * what fetching pair i's webhook returns (`None`: the fetch threw). `outs`
   * records each pair's store result.
   */
  method CheckForNewProposals(st: LocalStorage, hooks: seq<Webhook>, fetched: seq<Option<seq<Proposal>>>, now: int)
    returns (r: Counts, effect: Effect, ghost outs: seq<Option<Counts>>)
    requires |fetched| == |hooks|
    modifies st`storedProposals
    ensures |outs| == |hooks|
    ensures forall i :: 0 <= i < |hooks| ==>
      (outs[i].Some? <==> HasWebhook(hooks[i]) && fetched[i].Some? && st.readable && st.writable)
    ensures forall i :: 0 <= i < |hooks| && outs[i].Some? ==> outs[i].value.totalCount <= MaxStored
    ensures forall i :: 0 <= i < |hooks| && outs[i].Some? ==>
      fetched[i].Some? && outs[i].value == PairCounts(old(st.Proposals()), hooks, fetched, i, now)
    ensures r == Aggregate(outs)
    ensures (forall i :: 0 <= i < |hooks| ==> !HasWebhook(hooks[i])) ==> r == Counts(0, 0)
    ensures effect == if r.newCount > 0 then RunAddJobsNow else NoEffect
    ensures st.readable && st.writable ==>
      st.Proposals() == StoredAfter(old(st.Proposals()), Batches(hooks, fetched), now)
    ensures !(st.readable && st.writable) ==> st.storedProposals == old(st.storedProposals)
  {
    if forall i :: 0 <= i < |hooks| ==> !HasWebhook(hooks[i]) {
      outs := seq(|hooks|, i => None);
      AggregateTotalIsLast(outs);
      NoBatchesWithoutWebhooks(hooks, fetched);
      return Counts(0, 0), NoEffect, outs;
    }
    r, outs := PollAll(st, hooks, fetched, now);
    effect := if r.newCount > 0 then RunAddJobsNow else NoEffect;
  }

  /** The polling loop over every pair, a failing pair not stopping the others. */
  method PollAll(st: LocalStorage, hooks: seq<Webhook>, fetched: seq<Option<seq<Proposal>>>, now: int)
    returns (r: Counts, ghost outs: seq<Option<Counts>>)
    requires |fetched| == |hooks|
    modifies st`storedProposals
    ensures |outs| == |hooks|
    ensures SucceededWhen(hooks, fetched, outs, st.readable && st.writable)
    ensures forall i :: 0 <= i < |hooks| && outs[i].Some? ==> outs[i].value.totalCount <= MaxStored
    ensures CountsTied(old(st.Proposals()), hooks, fetched, outs, now)
    ensures r == Aggregate(outs)
    ensures st.readable && st.writable ==>
      st.Proposals() == StoredAfter(old(st.Proposals()), Batches(hooks, fetched), now)
    ensures !(st.readable && st.writable) ==> st.storedProposals == old(st.storedProposals)
  {
    var totalNew: nat := 0;
    var total: nat := 0;
    outs := [];
    ghost var existing := old(st.Proposals());
    ghost var ok := st.readable && st.writable;
    for i := 0 to |hooks|
      invariant outs == Outcomes(existing, hooks[..i], fetched[..i], ok, now)
      invariant Counts(totalNew, total) == Aggregate(outs)
      invariant ok ==> st.Proposals() == StoredAfter(existing, Batches(hooks[..i], fetched[..i]), now)
      invariant !ok ==> st.storedProposals == old(st.storedProposals)
    {
      ghost var before := st.Proposals();
      var o := PollPair(st, hooks[i], fetched[i], now);
      if o.Some? {
        totalNew := totalNew + o.value.newCount;
        total := o.value.totalCount;
      }
      AggregateSnoc(outs, o);
      PollStep(existing, hooks, fetched, now, i, o, ok, before, st.Proposals());
      outs := outs + [o];
    }
    assert hooks[..|hooks|] == hooks && fetched[..|fetched|] == fetched;
    OutcomesFacts(existing, hooks, fetched, ok, now);
    TiedBounded(existing, hooks, fetched, outs, now);
    r := Counts(totalNew, total);
  }

  /**
   * What the pairs record, in pair order: pair n succeeds when its webhook
   * is set, its fetch succeeded and the store works (`ok`), and then carries
   * the counts of storing its batch over what the earlier pairs left behind.
   */
  function Outcomes(existing: seq<Proposal>, hooks: seq<Webhook>, fetched: seq<Option<seq<Proposal>>>,
                    ok: bool, now: int): (outs: seq<Option<Counts>>)
    requires |fetched| == |hooks|
    ensures |outs| == |hooks|
    decreases |hooks|
  {
    if hooks == [] then []
    else
      var n := |hooks| - 1;
      Outcomes(existing, hooks[..n], fetched[..n], ok, now)
      + [if HasWebhook(hooks[n]) && fetched[n].Some? && ok then Some(PairCounts(existing, hooks, fetched, n, now)) else None]
  }

  /** The recorded outcomes are exactly the successes, each tied to its pair's store result. */
  lemma {:induction false} OutcomesFacts(existing: seq<Proposal>, hooks: seq<Webhook>,
                                         fetched: seq<Option<seq<Proposal>>>, ok: bool, now: int)
    requires |fetched| == |hooks|
    ensures SucceededWhen(hooks, fetched, Outcomes(existing, hooks, fetched, ok, now), ok)
    ensures CountsTied(existing, hooks, fetched, Outcomes(existing, hooks, fetched, ok, now), now)
    decreases |hooks|
  {
    if hooks != [] {
      var n := |hooks| - 1;
      var init := Outcomes(existing, hooks[..n], fetched[..n], ok, now);
      OutcomesFacts(existing, hooks[..n], fetched[..n], ok, now);
      LiftPrefix(existing, hooks, fetched, n, init, ok, now);
      var o := Outcomes(existing, hooks, fetched, ok, now)[n];
      SucceededWhenSnoc(hooks, fetched, init, o, ok);
      CountsTiedSnoc(existing, hooks, fetched, init, o, now);
      assert Outcomes(existing, hooks, fetched, ok, now) == init + [o];
    }
  }

  /** Facts about the first n pairs carry over to the whole list. */
  lemma LiftPrefix(existing: seq<Proposal>, hooks: seq<Webhook>, fetched: seq<Option<seq<Proposal>>>,
                   n: nat, outs: seq<Option<Counts>>, ok: bool, now: int)
    requires |fetched| == |hooks| && |outs| == n <= |hooks|
    requires SucceededWhen(hooks[..n], fetched[..n], outs, ok)
    requires CountsTied(existing, hooks[..n], fetched[..n], outs, now)
    ensures SucceededWhen(hooks, fetched, outs, ok)
    ensures CountsTied(existing, hooks, fetched, outs, now)
  {
    forall j | 0 <= j < n
      ensures outs[j].Some? <==> HasWebhook(hooks[j]) && fetched[j].Some? && ok
      ensures outs[j].Some? ==> fetched[j].Some? && outs[j].value == PairCounts(existing, hooks, fetched, j, now)
    {
      assert hooks[..n][j] == hooks[j] && fetched[..n][j] == fetched[j];
      assert hooks[..n][..j] == hooks[..j] && fetched[..n][..j] == fetched[..j];
    }
  }

  /** One turn of the loop: pair i's outcome extends the record, and the list is the one after pair i. */
  lemma PollStep(existing: seq<Proposal>, hooks: seq<Webhook>, fetched: seq<Option<seq<Proposal>>>, now: int,
                 i: nat, o: Option<Counts>, ok: bool, before: seq<Proposal>, after: seq<Proposal>)
    requires |fetched| == |hooks| && i < |hooks|
    requires ok ==> before == StoredAfter(existing, Batches(hooks[..i], fetched[..i]), now)
    requires o.Some? <==> HasWebhook(hooks[i]) && fetched[i].Some? && ok
    requires o.Some? ==> o.value == StoreResult(before, fetched[i].value, now).1
    requires o.Some? ==> after == StoreResult(before, fetched[i].value, now).0
    requires o.None? ==> after == before
    ensures Outcomes(existing, hooks[..i + 1], fetched[..i + 1], ok, now)
            == Outcomes(existing, hooks[..i], fetched[..i], ok, now) + [o]
    ensures ok ==> after == StoredAfter(existing, Batches(hooks[..i + 1], fetched[..i + 1]), now)
  {
    assert hooks[..i + 1][..i] == hooks[..i] && fetched[..i + 1][..i] == fetched[..i];
    if ok {
      PollStepStored(existing, hooks, fetched, i, now, before, after, o.Some?);
    }
  }

  /** The store after pair i, whether it stored its batch (`stored`) or left the list as it was. */
  lemma PollStepStored(existing: seq<Proposal>, hooks: seq<Webhook>, fetched: seq<Option<seq<Proposal>>>,
                       i: nat, now: int, before: seq<Proposal>, after: seq<Proposal>, stored: bool)
    requires |fetched| == |hooks| && i < |hooks|
    requires stored ==> HasWebhook(hooks[i]) && fetched[i].Some?
    requires stored ==> after == StoreResult(before, fetched[i].value, now).0
    requires !stored ==> after == before
    requires before == StoredAfter(existing, Batches(hooks[..i], fetched[..i]), now)
    requires !stored ==> !(HasWebhook(hooks[i]) && fetched[i].Some?)
    ensures after == StoredAfter(existing, Batches(hooks[..i + 1], fetched[..i + 1]), now)
  {
    BatchesStep(hooks, fetched, i);
    if stored {
      StoredAfterStep(existing, Batches(hooks[..i], fetched[..i]), fetched[i].value, now);
    } else {
      assert Batches(hooks[..i + 1], fetched[..i + 1]) == Batches(hooks[..i], fetched[..i]);
    }
  }

  /** Counts tied to a store result never exceed the store's bound. */
  lemma TiedBounded(existing: seq<Proposal>, hooks: seq<Webhook>, fetched: seq<Option<seq<Proposal>>>,
                    outs: seq<Option<Counts>>, now: int)
    requires |fetched| == |hooks| && |outs| <= |hooks|
    requires CountsTied(existing, hooks, fetched, outs, now)
    ensures forall i :: 0 <= i < |outs| && outs[i].Some? ==> outs[i].value.totalCount <= MaxStored
  {
  }

  /** One turn of the polling loop: store what pair `hook`'s fetch returned, if anything. */
  method PollPair(st: LocalStorage, hook: Webhook, fetched: Option<seq<Proposal>>, now: int)
    returns (o: Option<Counts>)
    modifies st`storedProposals
    ensures o.Some? <==> HasWebhook(hook) && fetched.Some? && st.readable && st.writable
    ensures o.Some? ==> o.value == StoreResult(old(st.Proposals()), fetched.value, now).1
    ensures o.Some? ==> st.Proposals() == StoreResult(old(st.Proposals()), fetched.value, now).0
    ensures o.None? ==> st.storedProposals == old(st.storedProposals)
  {
    o := None;
    if HasWebhook(hook) && fetched.Some? {
      var res := StoreProposals(st, fetched.value, now);
      if res.Ok? {
        o := Some(res.value);
      }
    }
  }

  lemma AggregateSnoc(outs: seq<Option<Counts>>, o: Option<Counts>)
    ensures Aggregate(outs + [o]) == match o
      case None => Aggregate(outs)
      case Some(c) => Counts(Aggregate(outs).newCount + c.newCount, c.totalCount)
  {
    assert (outs + [o])[..|outs|] == outs;
  }

  lemma BatchesStep(hooks: seq<Webhook>, fetched: seq<Option<seq<Proposal>>>, i: nat)
    requires |fetched| == |hooks| && i < |hooks|
    ensures Batches(hooks[..i + 1], fetched[..i + 1]) == Batches(hooks[..i], fetched[..i])
      + (if HasWebhook(hooks[i]) && fetched[i].Some? then [fetched[i].value] else [])
  {
    assert hooks[..i + 1][..i] == hooks[..i] && fetched[..i + 1][..i] == fetched[..i];
  }

  lemma StoredAfterStep(existing: seq<Proposal>, batches: seq<seq<Proposal>>, b: seq<Proposal>, now: int)
    ensures StoredAfter(existing, batches + [b], now) == StoreResult(StoredAfter(existing, batches, now), b, now).0
  {
    assert (batches + [b])[..|batches|] == batches;
  }

  lemma {:induction false} NoBatchesWithoutWebhooks(hooks: seq<Webhook>, fetched: seq<Option<seq<Proposal>>>)
    requires |fetched| == |hooks|
    requires forall i :: 0 <= i < |hooks| ==> !HasWebhook(hooks[i])
    ensures Batches(hooks, fetched) == []
    decreases |hooks|
  {
    if hooks != [] {
      NoBatchesWithoutWebhooks(hooks[..|hooks| - 1], fetched[..|hooks| - 1]);
    }
  }
}
