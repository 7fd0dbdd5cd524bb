/**
 * The content script on proposal pages: recognise the page, work out the
 * job it belongs to, ask for its stored proposal, and fill the cover letter.
 */
module AutoFill {
  import opened Basics
  import opened Records

  // ---------------------------------------------------------------------------
  // Page gate and job identification
  // ---------------------------------------------------------------------------

  /** The script acts only on an Upwork proposal page. */
  predicate ShouldRun(href: string) {
    Contains(href, "upwork.com") && Contains(href, "/proposals/")
  }

  predicate IsDigit(c: char) {
    '0' <= c <= '9'
  }

  /** The length of the run of digits starting at offset `i`. */
  function DigitRun(s: string, i: nat): (n: nat)
    ensures i + n <= |s| || (i > |s| && n == 0)
    ensures forall k :: i <= k < i + n ==> IsDigit(s[k])
    ensures i + n < |s| ==> !IsDigit(s[i + n])
    decreases |s| - i
  {
    if i < |s| && IsDigit(s[i]) then 1 + DigitRun(s, i + 1) else 0
  }

  /**
   * `/\/job\/(~[0-9]+)\//` matches at offset `i`: "/job/~", at least one
   * digit, then "/". The digit class is greedy and the next character after
   * the run is not a digit, so the match exists exactly when the whole run
   * is followed by "/".
   */
  predicate MatchAt(s: string, i: nat) {
    i + 6 <= |s| && s[i..i + 6] == "/job/~"
    && var n := DigitRun(s, i + 6);
    n >= 1 && i + 6 + n < |s| && s[i + 6 + n] == '/'
  }

  /** The first offset at or after `i` where the pattern matches. */
  function FindFrom(s: string, i: nat): (r: Option<nat>)
    ensures r.Some? ==> i <= r.value && MatchAt(s, r.value) && forall k :: i <= k < r.value ==> !MatchAt(s, k)
    ensures r.None? ==> forall k :: i <= k ==> !MatchAt(s, k)
    decreases |s| - i
  {
    if i >= |s| then None
    else if MatchAt(s, i) then Some(i)
    else FindFrom(s, i + 1)
  }

  /** The text the capture group covers for a match at `i`: the tilde and its digit run. */
  function Capture(s: string, i: nat): string
    requires MatchAt(s, i)
  {
    s[i + 5..i + 6 + DigitRun(s, i + 6)]
  }

  /** The first capture of the job-ID pattern: "~" and the digits, or `None`. */
  function ExtractJobId(s: string): (r: Option<string>)
    ensures r.Some? ==> (|r.value| >= 2 && r.value[0] == '~'
                         && forall k :: 1 <= k < |r.value| ==> IsDigit(r.value[k]))
    ensures r.Some? ==> exists i: nat :: (MatchAt(s, i) && OccursAt(s, "/job/" + r.value + "/", i)
                                          && forall k: nat :: k < i ==> !MatchAt(s, k))
    ensures r.None? <==> forall i: nat :: !MatchAt(s, i)
  {
    match FindFrom(s, 0)
    case None => None
    case Some(i) =>
      CaptureShape(s, i);
      Some(Capture(s, i))
  }

  /** A capture is "~" and at least one digit, and the match spells "/job/" + capture + "/". */
  lemma CaptureShape(s: string, i: nat)
    requires MatchAt(s, i)
    ensures var c := Capture(s, i);
      |c| >= 2 && c[0] == '~' && (forall k :: 1 <= k < |c| ==> IsDigit(c[k]))
      && OccursAt(s, "/job/" + c + "/", i)
  {
    var n := DigitRun(s, i + 6);
    var id := Capture(s, i);
    assert id == s[i + 5..i + 6 + n];
    assert s[i + 5] == s[i..i + 6][5];
    assert forall k :: 1 <= k < |id| ==> id[k] == s[i + 5 + k];
    assert s[i..i + 6 + n + 1] == "/job/" + id + "/" by {
      assert s[i..i + 6 + n + 1] == s[i..i + 5] + s[i + 5..i + 6 + n] + [s[i + 6 + n]];
      assert s[i..i + 5] == s[i..i + 6][..5];
    }
  }

  /** The job page URL built from an extracted ID. */
  function JobUrlFor(jobId: string): (u: string)
    ensures StartsWith(u, "https://www.upwork.com/jobs/")
    ensures |u| == |"https://www.upwork.com/jobs/"| + |jobId| + 1 && u[|u| - 1] == '/'
    ensures u[|"https://www.upwork.com/jobs/"|..|u| - 1] == jobId
  {
    "https://www.upwork.com/jobs/" + jobId + "/"
  }

  /** A string of digits, as the pattern's digit class accepts it. */
  predicate AllDigits(d: string) {
    forall k :: 0 <= k < |d| ==> IsDigit(d[k])
  }

  lemma {:induction false} DigitRunOver(s: string, i: nat, d: string)
    requires AllDigits(d)
    requires i + |d| <= |s| && s[i..i + |d|] == d
    requires i + |d| < |s| && !IsDigit(s[i + |d|])
    ensures DigitRun(s, i) == |d|
    decreases |d|
  {
    if d != [] {
      assert s[i] == d[0];
      assert s[i + 1..i + 1 + |d[1..]|] == d[1..];
      DigitRunOver(s, i + 1, d[1..]);
    }
  }

  /**
   * The ID is read from a path of the shape used by the apply pages: the
   * capture is the tilde and the digits after the first "/job/~".
   */
  lemma ExtractFromApplyPath(a: string, d: string, rest: string)
    requires !Contains(a, "/job/~")
    requires d != [] && AllDigits(d)
    ensures ExtractJobId(a + "/job/~" + d + "/" + rest) == Some("~" + d)
  {
    NoMatchThenFirst(a, d, rest);
    CaptureIs(a, d, rest);
  }

  lemma NoMatchThenFirst(a: string, d: string, rest: string)
    requires !Contains(a, "/job/~")
    requires d != [] && AllDigits(d)
    ensures FindFrom(a + "/job/~" + d + "/" + rest, 0) == Some(|a|)
  {
    var s := a + "/job/~" + d + "/" + rest;
    assert s == (a + "/job/~") + (d + "/" + rest);
    NoMatchInside(a, s);
    FirstMatchAfter(a, d, rest);
  }

  lemma CaptureIs(a: string, d: string, rest: string)
    requires d != [] && AllDigits(d)
    requires FindFrom(a + "/job/~" + d + "/" + rest, 0) == Some(|a|)
    ensures ExtractJobId(a + "/job/~" + d + "/" + rest) == Some("~" + d)
  {
    var s := a + "/job/~" + d + "/" + rest;
    ExtractAt(s, |a|);
    CaptureAfter(a, d, rest);
  }

  lemma CaptureAfter(a: string, d: string, rest: string)
    requires d != [] && AllDigits(d)
    ensures MatchAt(a + "/job/~" + d + "/" + rest, |a|)
    ensures Capture(a + "/job/~" + d + "/" + rest, |a|) == "~" + d
  {
    MatchesAfter(a, d, rest);
    TildeAndDigits(a, d, rest);
  }

  lemma FirstMatchAfter(a: string, d: string, rest: string)
    requires d != [] && AllDigits(d)
    requires forall k: nat :: k < |a| ==> !MatchAt(a + "/job/~" + d + "/" + rest, k)
    ensures FindFrom(a + "/job/~" + d + "/" + rest, 0) == Some(|a|)
  {
    MatchesAfter(a, d, rest);
    FindFromFirst(a + "/job/~" + d + "/" + rest, 0, |a|);
  }

  /** The capture read off the first match at `i`. */
  lemma ExtractAt(s: string, i: nat)
    requires FindFrom(s, 0) == Some(i)
    ensures MatchAt(s, i) && ExtractJobId(s) == Some(Capture(s, i))
  {
  }

  lemma TildeAndDigits(a: string, d: string, rest: string)
    requires d != [] && AllDigits(d)
    ensures DigitRun(a + "/job/~" + d + "/" + rest, |a| + 6) == |d|
    ensures (a + "/job/~" + d + "/" + rest)[|a| + 5..|a| + 6 + |d|] == "~" + d
  {
    var s := a + "/job/~" + d + "/" + rest;
    assert s[|a| + 6..|a| + 6 + |d|] == d;
    DigitRunOver(s, |a| + 6, d);
    assert s[|a| + 5] == '~';
    assert s[|a| + 5..|a| + 6 + |d|] == [s[|a| + 5]] + s[|a| + 6..|a| + 6 + |d|];
  }

  /** The path prefix of the apply pages holds no "/job/~" of its own. */
  lemma ApplyPrefixClean()
    ensures !Contains("https://www.upwork.com/nx/proposals", "/job/~")
  {
    var a := "https://www.upwork.com/nx/proposals";
    assert '~' !in a;
    forall i: nat ensures !OccursAt(a, "/job/~", i) {
      if i + 6 <= |a| {
        assert a[i..i + 6][5] == a[i + 5];
      }
    }
    ContainsIffOccurs(a, "/job/~");
  }

  /** An apply page URL of the site yields the tilde and the digits after "/job/". */
  lemma ApplyUrlYieldsId(d: string, rest: string)
    requires d != [] && AllDigits(d)
    ensures ExtractJobId("https://www.upwork.com/nx/proposals" + "/job/~" + d + "/" + rest) == Some("~" + d)
  {
    ApplyPrefixClean();
    ExtractFromApplyPath("https://www.upwork.com/nx/proposals", d, rest);
  }

  lemma MatchesAfter(a: string, d: string, rest: string)
    requires d != [] && AllDigits(d)
    ensures MatchAt(a + "/job/~" + d + "/" + rest, |a|)
  {
    var s := a + "/job/~" + d + "/" + rest;
    var i := |a|;
    assert s[i..i + 6] == "/job/~";
    assert s[i + 6..i + 6 + |d|] == d;
    assert s[i + 6 + |d|] == '/';
    DigitRunOver(s, i + 6, d);
  }

  /**
   * No match starts inside a prefix `a` that does not contain "/job/~" and
   * is followed by "/job/~": no proper suffix of "/job/" ends in '~', so a
   * match cannot straddle the end of `a`.
   */
  lemma NoMatchInside(a: string, s: string)
    requires !Contains(a, "/job/~") && StartsWith(s, a + "/job/~")
    ensures forall k: nat :: k < |a| ==> !MatchAt(s, k)
  {
    ContainsIffOccurs(a, "/job/~");
    var p := a + "/job/~";
    assert |s| >= |p| && s[..|p|] == p;
    forall k: nat | k < |a| ensures !MatchAt(s, k) {
      NoMatchAtInside(a, p, s, k);
    }
  }

  lemma NoMatchAtInside(a: string, p: string, s: string, k: nat)
    requires p == a + "/job/~" && |s| >= |p| && s[..|p|] == p && k < |a|
    requires !OccursAt(a, "/job/~", k)
    ensures !MatchAt(s, k)
  {
    if k + 6 <= |a| {
      var here, there := s[k..k + 6], a[k..k + 6];
      forall j | 0 <= j < 6 ensures here[j] == there[j] {
        assert here[j] == s[k + j] == p[k + j] == a[k + j] == there[j];
      }
      assert here == there;
    } else {
      assert s[k + 5] == p[k + 5];
      assert p[k + 5] == "/job/~"[k + 5 - |a|];
      assert s[k..k + 6][5] == s[k + 5];
    }
  }

  lemma {:induction false} FindFromFirst(s: string, j: nat, i: nat)
    requires j <= i && MatchAt(s, i)
    requires forall k: nat :: j <= k < i ==> !MatchAt(s, k)
    ensures FindFrom(s, j) == Some(i)
    decreases i - j
  {
    if j < i {
      FindFromFirst(s, j + 1, i);
    }
  }

  lemma {:induction false} DigitRunToEnd(s: string, i: nat)
    requires i <= |s|
    requires forall k :: i <= k < |s| ==> IsDigit(s[k])
    ensures DigitRun(s, i) == |s| - i
    decreases |s| - i
  {
    if i < |s| {
      DigitRunToEnd(s, i + 1);
    }
  }

  /** Without the trailing "/" there is no ID. */
  lemma NoTrailingSlashNoId(d: string)
    requires AllDigits(d)
    ensures ExtractJobId("/job/~" + d) == None
  {
    var s := "/job/~" + d;
    forall i: nat ensures !MatchAt(s, i) {
      if i == 0 {
        DigitRunToEnd(s, 6);
      } else if i + 6 <= |s| {
        assert s[i + 5] == d[i - 1];
        assert s[i..i + 6][5] == s[i + 5];
      }
    }
  }

  /** Without a digit after the tilde there is no ID. */
  lemma NoDigitsNoId()
    ensures ExtractJobId("/job/~/") == None
  {
    var s := "/job/~/";
    forall i: nat ensures !MatchAt(s, i) {
      if i == 0 {
        assert DigitRun(s, 6) == 0;
      } else if i + 6 <= |s| {
        assert s[i..i + 6][0] == s[1];
      }
    }
  }

  // ---------------------------------------------------------------------------
  // Asking for the proposal
  // ---------------------------------------------------------------------------

  /** The `getProposalForJob` request the script sends. */
  datatype Request = Request(jobUrl: string, jobId: Option<string>)

  /** The status gate: a proposal is filled unless it is already filled or submitted. */
  predicate NeedsFill(p: Proposal) {
    p.status != Some(Filled) && p.status != Some(Submitted)
  }

  /**
   * `checkAndFillProposal()`. `jobLinkHref` is the `href` of the first job
   * link on the page, and `response` is the proposal the background script
   * answers with (`None`: no answer, no proposal, or the request failed).
   * The request's URL is the job link's when there is one, else the URL
   * built from the ID, else the page's own; the fill starts only for a
   * proposal that still needs one.
   */
  method CheckAndFillProposal(href: string, jobLinkHref: Option<string>, response: Option<Proposal>)
    returns (request: Option<Request>, fill: Option<Proposal>)
    ensures !ShouldRun(href) ==> request.None? && fill.None?
    ensures ShouldRun(href) ==> request.Some? && request.value.jobId == ExtractJobId(href)
    ensures ShouldRun(href) && jobLinkHref.Some? ==> request.value.jobUrl == jobLinkHref.value
    ensures ShouldRun(href) && jobLinkHref.None? && ExtractJobId(href).Some? ==>
      request.value.jobUrl == JobUrlFor(ExtractJobId(href).value)
    ensures ShouldRun(href) && jobLinkHref.None? && ExtractJobId(href).None? ==> request.value.jobUrl == href
    ensures fill.Some? <==> ShouldRun(href) && response.Some? && NeedsFill(response.value)
    ensures fill.Some? ==> fill == response
  {
    if !(Contains(href, "upwork.com") && Contains(href, "/proposals/")) {
      return None, None;
    }
    var jobUrl := href;
    var jobId: Option<string> := None;
    var jobIdMatch := ExtractJobId(href);
    if jobIdMatch.Some? {
      jobId := jobIdMatch;
      jobUrl := JobUrlFor(jobId.value);
    }
    if jobLinkHref.Some? {
      jobUrl := jobLinkHref.value;
    }
    request := Some(Request(jobUrl, jobId));
    fill := None;
    if response.Some? {
      var proposal := response.value;
      if proposal.status != Some(Filled) && proposal.status != Some(Submitted) {
        fill := Some(proposal);
      }
    }
  }

  // ---------------------------------------------------------------------------
  // Filling the cover letter
  // ---------------------------------------------------------------------------

  const CoverLetterSelectors: seq<string> := [
    "textarea[aria-labelledby=\"cover_letter_label\"]",
    "textarea.air3-textarea.inner-textarea",
    "textarea.air3-textarea[aria-labelledby=\"cover_letter_label\"]",
    "textarea[data-v-cf0298f4][aria-labelledby=\"cover_letter_label\"]",
    "textarea.air3-textarea",
    "textarea[name=\"coverLetter\"]",
    "textarea[data-test=\"cover-letter\"]",
    "textarea#cover-letter"]

  /** The second search waits only for the first five selectors. */
  const WaitedSelectors: seq<string> := CoverLetterSelectors[..5]

  /**
   * The form page. `present` maps each selector with an element on the
   * page to whether that element is visible (has an offset parent);
   * `appeared` does the same for the selectors whose element shows up within
   * the wait of the second search; `fillThrows` says whether filling the
   * element found throws; `activityLogDefined` says whether the activity-log
   * function of the other content script is in scope.
   */
  datatype Form = Form(present: map<string, bool>, appeared: map<string, bool>,
                       fillThrows: bool, activityLogDefined: bool)

  /** The element the cover-letter searches settle on: its selector, and how it was found. */
  datatype Found = Found(index: nat, visible: bool, waited: bool)

  predicate VisibleIn(m: map<string, bool>, s: string) {
    s in m && m[s]
  }

  /** The index of the last selector with an element in `m`, if any. */
  function LastPresent(sels: seq<string>, m: map<string, bool>): (r: Option<nat>)
    ensures r.Some? ==> (r.value < |sels| && sels[r.value] in m
                         && forall k :: r.value < k < |sels| ==> sels[k] !in m)
    ensures r.None? <==> forall k :: 0 <= k < |sels| ==> sels[k] !in m
    decreases |sels|
  {
    if sels == [] then None
    else if sels[|sels| - 1] in m then Some(|sels| - 1)
    else LastPresent(sels[..|sels| - 1], m)
  }

  /** The index of the first selector whose element in `m` is visible, if any. */
  function FirstVisible(sels: seq<string>, m: map<string, bool>): (r: Option<nat>)
    ensures r.Some? ==> (r.value < |sels| && VisibleIn(m, sels[r.value])
                         && forall k :: 0 <= k < r.value ==> !VisibleIn(m, sels[k]))
    ensures r.None? <==> forall k :: 0 <= k < |sels| ==> !VisibleIn(m, sels[k])
    decreases |sels|
  {
    if sels == [] then None
    else if VisibleIn(m, sels[0]) then Some(0)
    else match FirstVisible(sels[1..], m)
      case None => None
      case Some(k) => Some(k + 1)
  }

  /**
   * The element `foundElement` ends up holding: the first visible element
   * present now; else, among the waited-for selectors, the first visible one
   * that appears; else the last one that appears at all, visible or not.
   */
  function CoverElement(form: Form): (f: Option<Found>)
    ensures f.Some? && !f.value.waited ==> f.value.visible
    ensures f.Some? && f.value.waited ==> f.value.index < 5
    ensures f.None? <==>
      (forall k :: 0 <= k < |CoverLetterSelectors| ==> !VisibleIn(form.present, CoverLetterSelectors[k]))
      && forall k :: 0 <= k < 5 ==> CoverLetterSelectors[k] !in form.appeared
  {
    NothingSettledIff(CoverLetterSelectors, WaitedSelectors, form);
    match FirstVisible(CoverLetterSelectors, form.present)
    case Some(i) => Some(Found(i, true, false))
    case None =>
      match FirstVisible(WaitedSelectors, form.appeared)
      case Some(i) => Some(Found(i, true, true))
      case None =>
        match LastPresent(WaitedSelectors, form.appeared)
        case Some(i) => Some(Found(i, false, true))
        case None => None
  }

  /** The searches settle on nothing exactly when no selector has a visible element and no waited one appears. */
  lemma NothingSettledIff(sels: seq<string>, waited: seq<string>, form: Form)
    requires |sels| >= 5 && waited == sels[..5]
    ensures FirstVisible(sels, form.present).None? && FirstVisible(waited, form.appeared).None?
            && LastPresent(waited, form.appeared).None?
            <==> (forall k :: 0 <= k < |sels| ==> !VisibleIn(form.present, sels[k]))
                 && forall k :: 0 <= k < 5 ==> sels[k] !in form.appeared
  {
    assert forall k :: 0 <= k < 5 ==> waited[k] == sels[k];
  }

  /** The first search: stop at the first element present and visible. */
  method SearchPresent(form: Form) returns (hit: Option<nat>)
    ensures hit == FirstVisible(CoverLetterSelectors, form.present)
  {
    hit := None;
    var i := 0;
    while i < |CoverLetterSelectors|
      invariant 0 <= i <= |CoverLetterSelectors|
      invariant forall k :: 0 <= k < i ==> !VisibleIn(form.present, CoverLetterSelectors[k])
    {
      var selector := CoverLetterSelectors[i];
      if selector in form.present && form.present[selector] {
        hit := Some(i);
        FirstVisibleIs(CoverLetterSelectors, form.present, i);
        return;
      }
      i := i + 1;
    }
  }

  lemma {:induction false} FirstVisibleIs(sels: seq<string>, m: map<string, bool>, i: nat)
    requires i < |sels| && VisibleIn(m, sels[i])
    requires forall k :: 0 <= k < i ==> !VisibleIn(m, sels[k])
    ensures FirstVisible(sels, m) == Some(i)
    decreases i
  {
    if i > 0 {
      assert forall k :: 0 <= k < i - 1 ==> sels[1..][k] == sels[k + 1];
      FirstVisibleIs(sels[1..], m, i - 1);
    }
  }

  /** The second search, over the waited-for selectors. */
  method SearchAppeared(form: Form) returns (found: Option<Found>)
    requires FirstVisible(CoverLetterSelectors, form.present).None?
    ensures found == CoverElement(form)
  {
    found := WaitForSelectors(WaitedSelectors, form.appeared);
    SettlesOnAppeared(form);
  }

  /**
   * Wait for each selector in turn: every element that appears overwrites
   * the one held before, and a visible one stops the search.
   */
  method WaitForSelectors(sels: seq<string>, appeared: map<string, bool>) returns (found: Option<Found>)
    ensures found == match FirstVisible(sels, appeared)
      case Some(i) => Some(Found(i, true, true))
      case None =>
        match LastPresent(sels, appeared)
        case Some(i) => Some(Found(i, false, true))
        case None => None
  {
    found := None;
    var i := 0;
    while i < |sels|
      invariant 0 <= i <= |sels|
      invariant forall k :: 0 <= k < i ==> !VisibleIn(appeared, sels[k])
      invariant found.None? ==> forall k :: 0 <= k < i ==> sels[k] !in appeared
      invariant found.Some? ==> (LastPresent(sels[..i], appeared).Some?
                                 && found == Some(Found(LastPresent(sels[..i], appeared).value, false, true)))
    {
      var selector := sels[i];
      assert sels[..i + 1][..i] == sels[..i];
      assert sels[..i + 1][i] == selector;
      if selector in appeared {
        found := Some(Found(i, appeared[selector], true));
        if appeared[selector] {
          FirstVisibleIs(sels, appeared, i);
          return;
        }
      }
      i := i + 1;
    }
    assert sels[..|sels|] == sels;
  }

  /** With nothing visible at first, the element held is what the second search settles on. */
  lemma SettlesOnAppeared(form: Form)
    requires FirstVisible(CoverLetterSelectors, form.present).None?
    ensures CoverElement(form) == match FirstVisible(WaitedSelectors, form.appeared)
      case Some(i) => Some(Found(i, true, true))
      case None =>
        match LastPresent(WaitedSelectors, form.appeared)
        case Some(i) => Some(Found(i, false, true))
        case None => None
  {
  }

  /** With no visible cover-letter field anywhere, the last one that appears is filled though hidden. */
  lemma HiddenFieldStillChosen(form: Form, i: nat)
    requires i < 5 && CoverLetterSelectors[i] in form.appeared
    requires forall k :: 0 <= k < |CoverLetterSelectors| ==> !VisibleIn(form.present, CoverLetterSelectors[k])
    requires forall k :: 0 <= k < 5 ==> !VisibleIn(form.appeared, CoverLetterSelectors[k])
    requires forall k :: i < k < 5 ==> CoverLetterSelectors[k] !in form.appeared
    ensures CoverElement(form) == Some(Found(i, false, true))
  {
    var sels := WaitedSelectors;
    assert forall k :: 0 <= k < 5 ==> sels[k] == CoverLetterSelectors[k];
    assert FirstVisible(sels, form.appeared).None?;
    assert sels[i] in form.appeared;
    var r := LastPresent(sels, form.appeared);
    assert r.Some?;
    assert r.value == i;
  }

  /** `(proposal.proposalText || '').trim()` is not empty. */
  predicate HasText(p: Proposal) {
    Truthy(p.proposalText) && Trim(p.proposalText.value) != ""
  }

  /** A cover letter made only of white space is never tried. */
  lemma BlankTextNotTried(p: Proposal)
    requires p.proposalText.Some? && AllSpace(p.proposalText.value)
    ensures !HasText(p)
  {
    TrimBlankIff(p.proposalText.value);
  }

  /** What `fillField(element, value)` does: nothing for a missing element or an empty value. */
  predicate FillFieldWrites(element: Option<Found>, value: string) {
    element.Some? && value != ""
  }

  /** The error raised by the unguarded call to the activity log when that function is not in scope. */
  const ActivityLogMissing: string := "addToActivityLog is not defined"

  /**
   * `fillProposalForm(proposal)`. Only the cover letter is filled, and only
   * when there is text; "filled" is reported only when it was, and a thrown
   * error reports "failed" with the error's message.
   */
  method FillProposalForm(proposal: Proposal, form: Form)
    returns (found: Option<Found>, filledFields: nat, sent: seq<Report>)
    ensures !form.activityLogDefined ==>
      filledFields == 0 && sent == [UpdateProposalStatus(proposal.jobUrl, Failed, Some(ActivityLogMissing))]
    ensures form.activityLogDefined ==> filledFields <= 1
    ensures form.activityLogDefined ==>
      (filledFields == 1 <==> HasText(proposal) && CoverElement(form).Some? && !form.fillThrows)
    ensures form.activityLogDefined && HasText(proposal) ==> found == CoverElement(form)
    ensures filledFields == 1 ==> FillFieldWrites(found, proposal.proposalText.value)
    ensures form.activityLogDefined ==>
      sent == (if filledFields > 0 then [UpdateProposalStatus(proposal.jobUrl, Filled, None)] else [])
  {
    found := None;
    filledFields := 0;
    if !form.activityLogDefined {
      return found, 0, [UpdateProposalStatus(proposal.jobUrl, Failed, Some(ActivityLogMissing))];
    }
    var proposalText := proposal.proposalText.GetOr("");
    if proposalText != "" && Trim(proposalText) != "" {
      var hit := SearchPresent(form);
      if hit.Some? {
        found := Some(Found(hit.value, true, false));
      } else {
        found := SearchAppeared(form);
      }
      if found.Some? && !form.fillThrows {
        filledFields := filledFields + 1;
      }
    }
    sent := if filledFields > 0 then [UpdateProposalStatus(proposal.jobUrl, Filled, None)] else [];
  }
}
