/** The page scraper (content.js `getJobDescription`, `getJobMetadata`). The
    DOM is abstracted to what the selectors find: for each selector, the
    rendered text of the first matching element, or None when nothing matches. */
module Scraper {
  import opened Js
  import opened Text

  const LinkedInDomain := "linkedin.com"
  const UnknownTitle := "Unknown Title"
  const UnknownCompany := "Unknown Company"

  datatype Page = Page(
    hostname: string,
    href: string,
    jobsDescription: Option<string>,         // .jobs-description
    jobsDescriptionContent: Option<string>,  // .jobs-description-content__text
    jobDetails: Option<string>,              // #job-details
    firstArticle: Option<string>,            // first <article>
    firstMain: Option<string>,               // first <main>
    bodyText: string,                        // document.body
    topCardTitle: Option<string>,            // .job-details-jobs-unified-top-card__job-title
    firstH1: Option<string>,                 // h1
    topCardPrimaryLink: Option<string>,      // .job-details-jobs-unified-top-card__primary-description a
    topCardCompanyLink: Option<string>)      // .job-details-jobs-unified-top-card__company-name a

  datatype JobMetadata = JobMetadata(title: string, company: string, url: string)

  /** `hostname.includes('linkedin.com')`. */
  predicate OnLinkedIn(hostname: string) {
    Contains(hostname, LinkedInDomain)
  }

  /** `a || b || ...` over lookups that yield an element or null: the first
      element found, if any. */
  function FirstFound(lookups: seq<Option<string>>): (r: Option<string>)
    ensures r.None? <==> forall i :: 0 <= i < |lookups| ==> lookups[i].None?
    ensures r.Some? ==> exists i :: 0 <= i < |lookups| && lookups[i] == r && forall j :: 0 <= j < i ==> lookups[j].None?
  {
    if |lookups| == 0 then None
    else if lookups[0].Some? then lookups[0]
    else
      var r := FirstFound(lookups[1..]);
      assert forall i :: 0 < i < |lookups| ==> lookups[i] == lookups[1..][i - 1];
      r
  }

  /** Searching two lists in turn is searching their concatenation. */
  lemma {:induction false} FirstFoundAppend(a: seq<Option<string>>, b: seq<Option<string>>)
    ensures FirstFound(a + b) == if FirstFound(a).Some? then FirstFound(a) else FirstFound(b)
    decreases |a|
  {
    if |a| > 0 {
      assert (a + b)[1..] == a[1..] + b;
      FirstFoundAppend(a[1..], b);
    } else {
      assert a + b == b;
    }
  }

  /** The description sources in priority order: on LinkedIn the three
      description selectors, then on every page the first article, the first
      main element and the body. */
  function DescriptionSources(p: Page): seq<Option<string>> {
    (if OnLinkedIn(p.hostname) then [p.jobsDescription, p.jobsDescriptionContent, p.jobDetails] else [])
      + [p.firstArticle, p.firstMain, Some(p.bodyText)]
  }

  /** `getJobDescription`, in the source's own cascade. */
  function GetJobDescription(p: Page): (r: string)
    ensures FirstFound(DescriptionSources(p)) == Some(r)
  {
    var linked := FirstFound([p.jobsDescription, p.jobsDescriptionContent, p.jobDetails]);
    var generic := [p.firstArticle, p.firstMain, Some(p.bodyText)];
    FirstFoundAppend(if OnLinkedIn(p.hostname) then [p.jobsDescription, p.jobsDescriptionContent, p.jobDetails] else [], generic);
    assert generic[1..] == [p.firstMain, Some(p.bodyText)];
    assert generic[1..][1..] == [Some(p.bodyText)];
    assert FirstFound(generic[1..][1..]) == Some(p.bodyText);
    if OnLinkedIn(p.hostname) && linked.Some? then linked.value
    else if p.firstArticle.Some? then p.firstArticle.value
    else if p.firstMain.Some? then p.firstMain.value
    else p.bodyText
  }

  /** Off LinkedIn the LinkedIn description selectors are never consulted. */
  lemma DescriptionIgnoresLinkedInSelectorsElsewhere(p: Page, q: Page)
    requires !OnLinkedIn(p.hostname)
    requires q == p.(jobsDescription := q.jobsDescription, jobsDescriptionContent := q.jobsDescriptionContent,
                     jobDetails := q.jobDetails)
    ensures GetJobDescription(q) == GetJobDescription(p)
  {
  }

  /** The title lookups in priority order. */
  function TitleSources(p: Page): seq<Option<string>> {
    if OnLinkedIn(p.hostname) then [p.topCardTitle, p.firstH1] else [p.firstH1]
  }

  /** The company lookups in priority order; none off LinkedIn. */
  function CompanySources(p: Page): seq<Option<string>> {
    if OnLinkedIn(p.hostname) then [p.topCardPrimaryLink, p.topCardCompanyLink] else []
  }

  /** `getJobMetadata`: trimmed text of the first title and company elements
      found, with fixed defaults, and the page address. */
  function GetJobMetadata(p: Page): (m: JobMetadata)
    ensures m.url == p.href
    ensures FirstFound(TitleSources(p)).None? ==> m.title == UnknownTitle
    ensures FirstFound(TitleSources(p)).Some? ==> m.title == Trim(FirstFound(TitleSources(p)).value)
    ensures FirstFound(CompanySources(p)).None? ==> m.company == UnknownCompany
    ensures FirstFound(CompanySources(p)).Some? ==> m.company == Trim(FirstFound(CompanySources(p)).value)
    ensures !OnLinkedIn(p.hostname) ==> m.company == UnknownCompany
  {
    if OnLinkedIn(p.hostname) then
      var titleEl := FirstFound([p.topCardTitle, p.firstH1]);
      var companyEl := FirstFound([p.topCardPrimaryLink, p.topCardCompanyLink]);
      JobMetadata(
        if titleEl.Some? then Trim(titleEl.value) else UnknownTitle,
        if companyEl.Some? then Trim(companyEl.value) else UnknownCompany,
        p.href)
    else
      JobMetadata(if p.firstH1.Some? then Trim(p.firstH1.value) else UnknownTitle, UnknownCompany, p.href)
  }
}
