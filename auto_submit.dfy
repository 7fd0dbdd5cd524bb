/**
 * The page script injected into a job tab: route by URL, find and click
 * the Apply and Submit buttons, fill the form, and report the outcome to
 * the background script.
 */
module AutoSubmit {
  import opened Basics
  import opened Records

  // ---------------------------------------------------------------------------
  // Pages, as far as the script observes them
  // ---------------------------------------------------------------------------

  /** A form element found by a selector: its `type` and whether filling it completes without throwing. */
  datatype Element = Element(kind: string, fillOk: bool)

  /**
   * What the script can observe. `href` is the location when the script
   * starts; `jobFound` are the selectors that resolve on the job page and
   * `jobTexts` the texts of its `button, a` elements in document order
   * (`None`: no text); `form` maps the selectors that resolve on the form
   * page to their element, and `formTexts` are the texts of its buttons;
   * `formHref` is the location while the form is handled and `finalHref`
   * the one after the submit click; `successTestShown` and
   * `successClassShown` say whether the two success elements are there then.
   */
  datatype Page = Page(
    href: string,
    jobFound: set<string>,
    jobTexts: seq<Option<string>>,
    form: map<string, Element>,
    formTexts: seq<Option<string>>,
    formHref: string,
    finalHref: string,
    successTestShown: bool,
    successClassShown: bool)

  // ---------------------------------------------------------------------------
  // First hits
  // ---------------------------------------------------------------------------

  /** The index of the first element satisfying `p`, if any. */
  function FirstIndex<T>(xs: seq<T>, p: T -> bool): (r: Option<nat>)
    ensures r.Some? ==> r.value < |xs| && p(xs[r.value]) && forall j :: 0 <= j < r.value ==> !p(xs[j])
    ensures r.None? <==> forall j :: 0 <= j < |xs| ==> !p(xs[j])
    decreases |xs|
  {
    if xs == [] then None
    else if p(xs[0]) then Some(0)
    else match FirstIndex(xs[1..], p)
      case None => None
      case Some(k) => Some(k + 1)
  }

  /** A search loop that stops at the first element satisfying `p`. */
  method FirstWhere<T>(xs: seq<T>, p: T -> bool) returns (hit: Option<nat>)
    ensures hit == FirstIndex(xs, p)
  {
    hit := None;
    var i := 0;
    while i < |xs|
      invariant 0 <= i <= |xs|
      invariant forall j :: 0 <= j < i ==> !p(xs[j])
    {
      if p(xs[i]) {
        hit := Some(i);
        FirstIndexIs(xs, p, i);
        return;
      }
      i := i + 1;
    }
  }

  /** The first index is unique: an index that satisfies `p` after no other does is it. */
  lemma FirstIndexIs<T>(xs: seq<T>, p: T -> bool, i: nat)
    requires i < |xs| && p(xs[i])
    requires forall j :: 0 <= j < i ==> !p(xs[j])
    ensures FirstIndex(xs, p) == Some(i)
  {
  }

  /** Which element a button search settled on: the i-th selector, or the i-th element by text. */
  datatype Target = BySelector(index: nat) | ByText(index: nat)

  // ---------------------------------------------------------------------------
  // Button texts
  // ---------------------------------------------------------------------------

  /** The Apply fallback: lowercased text contains "apply" or "submit proposal"; no text does not match. */
  predicate IsApplyText(t: Option<string>) {
    t.Some? && (Contains(Lower(t.value), "apply") || Contains(Lower(t.value), "submit proposal"))
  }

  /** The Submit fallback on `text || ''`: contains "submit" and not "draft". */
  predicate IsSubmitText(t: Option<string>) {
    var text := if t.Some? then Lower(t.value) else "";
    Contains(text, "submit") && !Contains(text, "draft")
  }

  /** "Apply Now" selects the Apply button, case aside. */
  lemma ApplyNowMatches()
    ensures IsApplyText(Some("Apply Now"))
  {
    var t := "Apply Now";
    assert Lower(t) == "apply now" by {
      assert |Lower(t)| == 9;
      assert forall i :: 0 <= i < 9 ==> Lower(t)[i] == "apply now"[i];
    }
    ContainsInfix("", "apply", " now");
    assert "" + "apply" + " now" == "apply now";
  }

  /** "Submit" selects the Submit button. */
  lemma SubmitMatches()
    ensures IsSubmitText(Some("Submit"))
  {
    var t := "Submit";
    assert Lower(t) == "submit" by {
      assert forall i :: 0 <= i < 6 ==> Lower(t)[i] == "submit"[i];
    }
    ContainsInfix("", "submit", "");
    assert "" + "submit" + "" == "submit";
    SubmitLacksDraft();
  }

  lemma SubmitLacksDraft()
    ensures !Contains("submit", "draft")
  {
    var s := "submit";
    ContainsIffOccurs(s, "draft");
    forall i: nat ensures !OccursAt(s, "draft", i) {
      if i + 5 <= 6 {
        assert s[i..i + 5][0] == s[i] != 'd';
      }
    }
  }

  /** A button without text selects neither button. */
  lemma NoTextMatchesNothing()
    ensures !IsSubmitText(None)
    ensures !IsApplyText(None)
  {
    ContainsIffOccurs("", "submit");
    forall i: nat ensures !OccursAt("", "submit", i) {
    }
  }

  /**
   * A text mentioning "draft" in any letter case never selects the Submit
   * button, whatever else it says.
   */
  lemma DraftNeverSubmits(a: string, t: string, b: string)
    requires Lower(t) == "draft"
    ensures !IsSubmitText(Some(a + t + b))
  {
    LowerAppend(a, t);
    LowerAppend(a + t, b);
    ContainsInfix(Lower(a), "draft", Lower(b));
  }

  /** "Save as Draft" is not taken for the Submit button. */
  lemma SaveAsDraftNotSubmit()
    ensures !IsSubmitText(Some("Save as Draft"))
  {
    assert Lower("Draft") == "draft" by {
      assert forall i :: 0 <= i < 5 ==> Lower("Draft")[i] == "draft"[i];
    }
    DraftNeverSubmits("Save as ", "Draft", "");
    assert "Save as " + "Draft" + "" == "Save as Draft";
  }

  // ---------------------------------------------------------------------------
  // Selectors
  // ---------------------------------------------------------------------------

  const ApplySelectors: seq<string> := [
    "button[data-test=\"apply-button\"]",
    "a[data-test=\"apply-button\"]",
    "button.air3-btn-primary",
    "a[href*=\"/proposals/\"]"]

  const CoverSelectors: seq<string> := [
    "textarea[name=\"coverLetter\"]",
    "textarea[data-test=\"cover-letter\"]",
    "textarea.air3-textarea",
    "textarea#cover-letter",
    "textarea[placeholder*=\"cover\"]",
    "textarea[placeholder*=\"proposal\"]"]

  const RateSelectors: seq<string> := [
    "input[name=\"hourlyRate\"]",
    "input[data-test=\"hourly-rate\"]",
    "input[type=\"number\"]",
    "input[placeholder*=\"rate\"]",
    "input[placeholder*=\"$/hr\"]"]

  /** The last two entries are the same selector. */
  const SubmitSelectors: seq<string> := [
    "button[type=\"submit\"]",
    "button[data-test=\"submit-proposal\"]",
    "button.air3-btn-primary",
    "button.air3-btn-primary"]

  /** The Apply button `clickApplyNow` clicks: the first resolving selector, else the first Apply text. */
  function ApplyTarget(page: Page): (t: Option<Target>)
    ensures t.Some? && t.value.BySelector? ==>
      t.value.index < |ApplySelectors| && ApplySelectors[t.value.index] in page.jobFound
      && forall j :: 0 <= j < t.value.index ==> ApplySelectors[j] !in page.jobFound
    ensures t.Some? && t.value.ByText? ==>
      (forall j :: 0 <= j < |ApplySelectors| ==> ApplySelectors[j] !in page.jobFound)
      && t.value.index < |page.jobTexts| && IsApplyText(page.jobTexts[t.value.index])
      && forall j :: 0 <= j < t.value.index ==> !IsApplyText(page.jobTexts[j])
    ensures t.None? <==>
      (forall j :: 0 <= j < |ApplySelectors| ==> ApplySelectors[j] !in page.jobFound)
      && forall j :: 0 <= j < |page.jobTexts| ==> !IsApplyText(page.jobTexts[j])
  {
    match FirstIndex(ApplySelectors, s => s in page.jobFound)
    case Some(i) => Some(BySelector(i))
    case None =>
      match FirstIndex(page.jobTexts, IsApplyText)
      case Some(i) => Some(ByText(i))
      case None => None
  }

  /** The Submit button `submitProposal` clicks: the first resolving selector, else the first Submit text. */
  function SubmitTarget(page: Page): (t: Option<Target>)
    ensures t.Some? && t.value.BySelector? ==>
      t.value.index < |SubmitSelectors| && SubmitSelectors[t.value.index] in page.form
      && forall j :: 0 <= j < t.value.index ==> SubmitSelectors[j] !in page.form
    ensures t.Some? && t.value.ByText? ==>
      (forall j :: 0 <= j < |SubmitSelectors| ==> SubmitSelectors[j] !in page.form)
      && t.value.index < |page.formTexts| && IsSubmitText(page.formTexts[t.value.index])
      && forall j :: 0 <= j < t.value.index ==> !IsSubmitText(page.formTexts[j])
    ensures t.None? <==>
      (forall j :: 0 <= j < |SubmitSelectors| ==> SubmitSelectors[j] !in page.form)
      && forall j :: 0 <= j < |page.formTexts| ==> !IsSubmitText(page.formTexts[j])
  {
    match FirstIndex(SubmitSelectors, s => s in page.form)
    case Some(i) => Some(BySelector(i))
    case None =>
      match FirstIndex(page.formTexts, IsSubmitText)
      case Some(i) => Some(ByText(i))
      case None => None
  }

  /** The repeated last Submit selector can never be the one that hits: the one before it would have. */
  lemma RepeatedSubmitSelectorNeverHits(page: Page)
    ensures SubmitTarget(page) != Some(BySelector(3))
  {
    assert SubmitSelectors[2] == SubmitSelectors[3];
  }

  /** Filling the cover letter through selector `s` succeeds. */
  predicate CoverFills(page: Page, s: string) {
    s in page.form && page.form[s].fillOk
  }

  /** Filling the rate through selector `s` succeeds: the element is a number or text input and takes the value. */
  predicate RateFills(page: Page, s: string) {
    s in page.form && (page.form[s].kind == "number" || page.form[s].kind == "text") && page.form[s].fillOk
  }

  /** Some cover-letter selector takes the text. */
  predicate CoverFillable(page: Page) {
    exists i :: 0 <= i < |CoverSelectors| && CoverFills(page, CoverSelectors[i])
  }

  /** Some rate selector takes the bid. */
  predicate RateFillable(page: Page) {
    exists i :: 0 <= i < |RateSelectors| && RateFills(page, RateSelectors[i])
  }

  // ---------------------------------------------------------------------------
  // The steps
  // ---------------------------------------------------------------------------

  /** The message for the success report: the location after the click, not the proposal's URL. */
  function SuccessReport(page: Page): Report {
    MarkJobAsSubmitted(Some(page.finalHref), true)
  }

  /**
   * The success indicators as `!== null` tests: two element lookups, which
   * give `null` when absent, and a boolean, which never does.
   */
  function Indicators(page: Page): seq<bool> {
    [page.successTestShown, page.successClassShown, true]
  }

  function AnyTrue(s: seq<bool>): bool {
    exists i :: 0 <= i < |s| && s[i]
  }

  /** The check after the submit click always finds the submission done. */
  lemma AlwaysSubmitted(page: Page)
    ensures AnyTrue(Indicators(page))
  {
    assert Indicators(page)[2];
  }

  /**
   * `submitProposal()`: click the first Submit button found. Without one it
   * reports a failure for the form page's location and throws; with one it
   * reports success for the location after the click, whether or not a
   * success indicator was seen.
   */
  method SubmitProposal(page: Page) returns (clicked: Option<Target>, sent: seq<Report>, thrown: bool)
    ensures clicked == SubmitTarget(page)
    ensures thrown <==> clicked.None?
    ensures !thrown ==> sent == [SuccessReport(page)]
    ensures thrown ==> sent == [MarkJobAsSubmitted(Some(page.formHref), false)]
  {
    var hit := FirstWhere(SubmitSelectors, s => s in page.form);
    if hit.Some? {
      clicked := Some(BySelector(hit.value));
    } else {
      var byText := FirstWhere(page.formTexts, IsSubmitText);
      clicked := if byText.Some? then Some(ByText(byText.value)) else None;
    }
    if clicked.None? {
      return clicked, [MarkJobAsSubmitted(Some(page.formHref), false)], true;
    }
    var submitted := AnyTrue(Indicators(page));
    if submitted {
      sent := [MarkJobAsSubmitted(Some(page.finalHref), true)];
    } else {
      sent := [MarkJobAsSubmitted(Some(page.finalHref), true)];
    }
    thrown := false;
  }

  /**
   * `fillAndSubmitProposal(proposal)`: fill the cover letter if there is
   * text, the rate if there is a bid, each through the first selector that
   * takes the value, then submit whatever was filled.
   */
  method FillAndSubmitProposal(proposal: Proposal, page: Page)
    returns (filledFields: nat, sent: seq<Report>, thrown: bool)
    ensures filledFields <= 2
    ensures filledFields == (if Truthy(proposal.proposalText) && CoverFillable(page) then 1 else 0)
                          + (if Truthy(proposal.bidAmount) && RateFillable(page) then 1 else 0)
    ensures thrown <==> SubmitTarget(page).None?
    ensures !thrown ==> sent == [SuccessReport(page)]
    ensures thrown ==> sent == [MarkJobAsSubmitted(Some(page.formHref), false)]
  {
    filledFields := 0;
    if Truthy(proposal.proposalText) {
      var hit := FirstWhere(CoverSelectors, s => CoverFills(page, s));
      CoverHitIff(page);
      if hit.Some? {
        filledFields := filledFields + 1;
      }
    }
    if Truthy(proposal.bidAmount) {
      var hit := FirstWhere(RateSelectors, s => RateFills(page, s));
      RateHitIff(page);
      if hit.Some? {
        filledFields := filledFields + 1;
      }
    }
    var clicked;
    clicked, sent, thrown := SubmitProposal(page);
  }

  /** The cover-letter search hits exactly when some selector takes the text. */
  lemma CoverHitIff(page: Page)
    ensures FirstIndex(CoverSelectors, s => CoverFills(page, s)).Some? <==> CoverFillable(page)
  {
    HitIffAny(CoverSelectors, s => CoverFills(page, s));
  }

  /** The rate search hits exactly when some selector takes the bid. */
  lemma RateHitIff(page: Page)
    ensures FirstIndex(RateSelectors, s => RateFills(page, s)).Some? <==> RateFillable(page)
  {
    HitIffAny(RateSelectors, s => RateFills(page, s));
  }

  lemma HitIffAny<T>(xs: seq<T>, p: T -> bool)
    ensures FirstIndex(xs, p).Some? <==> exists i :: 0 <= i < |xs| && p(xs[i])
  {
  }

  /** `clickApplyNow(proposal)`: click the Apply button, then handle the form wherever the page went. */
  method ClickApplyNow(proposal: Proposal, page: Page) returns (sent: seq<Report>, thrown: bool)
    ensures ApplyTarget(page).None? ==> thrown && sent == []
    ensures ApplyTarget(page).Some? ==> (thrown <==> SubmitTarget(page).None?)
    ensures ApplyTarget(page).Some? && !thrown ==> sent == [SuccessReport(page)]
    ensures ApplyTarget(page).Some? && thrown ==> sent == [MarkJobAsSubmitted(Some(page.formHref), false)]
  {
    var hit := FirstWhere(ApplySelectors, s => s in page.jobFound);
    var applyButton: Option<Target>;
    if hit.Some? {
      applyButton := Some(BySelector(hit.value));
    } else {
      var byText := FirstWhere(page.jobTexts, IsApplyText);
      applyButton := if byText.Some? then Some(ByText(byText.value)) else None;
    }
    if applyButton.None? {
      return [], true;
    }
    var filled;
    filled, sent, thrown := FillAndSubmitProposal(proposal, page);
  }

  /** Where the script goes from the current location. */
  datatype Route = FillForm | ClickApply | InvalidPage

  /** "/proposals/" is checked before "/jobs/". */
  function RouteOf(href: string): (r: Route)
    ensures r == FillForm <==> Contains(href, "/proposals/")
    ensures r == ClickApply <==> !Contains(href, "/proposals/") && Contains(href, "/jobs/")
    ensures r == InvalidPage <==> !Contains(href, "/proposals/") && !Contains(href, "/jobs/")
  {
    if Contains(href, "/proposals/") then FillForm
    else if Contains(href, "/jobs/") then ClickApply
    else InvalidPage
  }

  /** A page under "/jobs/" that links to "/proposals/" is a form page, not a job page. */
  lemma ProposalsWinsOverJobs(a: string, b: string, c: string)
    ensures RouteOf(a + "/jobs/" + b + "/proposals/" + c) == FillForm
  {
    assert a + "/jobs/" + b + "/proposals/" + c == (a + "/jobs/" + b) + "/proposals/" + c;
    ContainsInfix(a + "/jobs/" + b, "/proposals/", c);
  }

  /** Whether a run reaches a successful submit click. */
  predicate Completes(page: Page) {
    RouteOf(page.href) != InvalidPage
    && (RouteOf(page.href) == ClickApply ==> ApplyTarget(page).Some?)
    && SubmitTarget(page).Some?
  }

  /** The error an undefined proposal raises when its `jobUrl` is read. */
  const UndefinedProposalError: string := "Cannot read properties of undefined (reading 'jobUrl')"

  /**
   * `autoSubmitProposal(proposal)`. Every error is caught and reported as a
   * failure for the proposal's own URL, after the failure the Submit step
   * itself reports; only an undefined proposal, whose URL cannot even be
   * read in the handler, makes the call reject, reporting nothing.
   */
  method AutoSubmitProposal(proposal: Option<Proposal>, page: Page)
    returns (sent: seq<Report>, rejected: Option<string>)
    ensures proposal.None? ==> sent == [] && rejected == Some(UndefinedProposalError)
    ensures proposal.Some? ==> rejected.None? && 1 <= |sent| <= 2
    ensures proposal.Some? && Completes(page) ==> sent == [SuccessReport(page)]
    ensures proposal.Some? && !Completes(page) ==>
      sent[|sent| - 1] == MarkJobAsSubmitted(proposal.value.jobUrl, false)
      && (|sent| == 2 <==> RouteOf(page.href) != InvalidPage
                           && (RouteOf(page.href) == ClickApply ==> ApplyTarget(page).Some?))
      && (|sent| == 2 ==> sent[0] == MarkJobAsSubmitted(Some(page.formHref), false))
  {
    if proposal.None? {
      return [], Some(UndefinedProposalError);
    }
    var p := proposal.value;
    var currentUrl := page.href;
    var thrown: bool;
    if Contains(currentUrl, "/proposals/") {
      var filled;
      filled, sent, thrown := FillAndSubmitProposal(p, page);
    } else if Contains(currentUrl, "/jobs/") {
      sent, thrown := ClickApplyNow(p, page);
    } else {
      sent, thrown := [], true;
    }
    if thrown {
      sent := sent + [MarkJobAsSubmitted(p.jobUrl, false)];
    }
    rejected := None;
  }

  /** The reply the listener sends back through `sendResponse`. */
  datatype Reply = Reply(success: bool, error: Option<string>)

  /**
   * The message listener: "startAutoSubmission" runs the submission and
   * replies with its outcome; any other message gets no reply.
   */
  method OnMessage(messageType: string, proposal: Option<Proposal>, page: Page)
    returns (reply: Option<Reply>, sent: seq<Report>)
    ensures messageType != "startAutoSubmission" ==> reply.None? && sent == []
    ensures messageType == "startAutoSubmission" && proposal.Some? ==> reply == Some(Reply(true, None))
    ensures messageType == "startAutoSubmission" && proposal.None? ==>
      reply == Some(Reply(false, Some(UndefinedProposalError))) && sent == []
  {
    if messageType == "startAutoSubmission" {
      var rejected;
      sent, rejected := AutoSubmitProposal(proposal, page);
      reply := if rejected.None? then Some(Reply(true, None)) else Some(Reply(false, rejected));
    } else {
      reply, sent := None, [];
    }
  }
}
