/**
 * The `/get_contact_info` pipeline of main.py: pick the first suggested
 * domain (get_company_domain), fetch `https://www.<domain>`
 * (fetch_website_content), and extract six duplicate-free lists from the
 * page (extract_info), failing with 404 or 500 on the way.
 *
 * The two network calls are inputs: the records the domain-suggestion
 * service returns, and `fetch`, what the GET of a URL results in. A run
 * records the URLs it fetched, so "nothing is fetched" is a statement about
 * the run.
 *
 * As written, `findall` yields tuples of groups for the four link patterns,
 * so the link lists carry tuples (GetContactInfo). GetContactInfoIntended
 * carries the matched URLs instead. Both are Pipeline with a different
 * extraction for the link lists, so every lemma about Pipeline holds for both.
 */
module Contact {
  import opened Wrappers
  import opened CharClass
  import opened Patterns
  import opened Findall
  import opened ListSet

  // ---------------------------------------------------------------------------
  // Inputs
  // ---------------------------------------------------------------------------

  /** A record of the domain-suggestion service; `domain` is None for a JSON null. */
  datatype Candidate = Candidate(domain: Option<string>)

  /** What the GET of a URL results in: a response with its status code and text, or a transport exception. */
  datatype FetchOutcome = Response(status: int, text: string) | TransportError(reason: string)

  // ---------------------------------------------------------------------------
  // get_company_domain and fetch_website_content
  // ---------------------------------------------------------------------------

  /** The first record's domain, or None when there is no record. */
  function GetCompanyDomain(records: seq<Candidate>): Option<string> {
    if |records| > 0 then records[0].domain else None
  }

  /** Python's `not domain`: None or the empty string. */
  predicate Falsy(domain: Option<string>) {
    domain.None? || domain.value == ""
  }

  /** What fetch_website_content does: return the text or None, or raise an HTTP error. */
  datatype Fetched = Returned(content: Option<string>) | Raised(status: int, detail: string)

  const FetchErrorPrefix := "Error fetching website content: "

  function FetchWebsiteContent(outcome: FetchOutcome): (r: Fetched)
    ensures r.Returned? && r.content.Some? <==> outcome.Response? && outcome.status == 200
    ensures r.Returned? && r.content.Some? ==> r.content.value == outcome.text
    ensures r.Raised? <==> outcome.TransportError?
    ensures r.Raised? ==> r.status == 500 && r.detail == FetchErrorPrefix + outcome.reason
  {
    match outcome
    case TransportError(reason) => Raised(500, FetchErrorPrefix + reason)
    case Response(status, text) => if status == 200 then Returned(Some(text)) else Returned(None)
  }

  // ---------------------------------------------------------------------------
  // extract_info
  // ---------------------------------------------------------------------------

  /** `extract_info` for a pattern whose `findall` yields texts, and the intended link lists. */
  function ExtractTexts(p: Pattern, content: string): seq<string> {
    Distinct(MatchedTexts(p, content))
  }

  /** `extract_info` for a link pattern, whose `findall` yields tuples of groups. */
  function ExtractTuples(p: Pattern, content: string): seq<seq<string>> {
    Distinct(GroupTuples(p, content))
  }

  // ---------------------------------------------------------------------------
  // get_contact_info
  // ---------------------------------------------------------------------------

  /** The endpoint's answer: an HTTP error, or the bundle of a website and six lists. */
  datatype Answer<L> =
    | Error(status: int, detail: string)
    | Bundle(website: string, phones: seq<string>, emails: seq<string>,
             facebook: seq<L>, instagram: seq<L>, twitter: seq<L>, youtube: seq<L>)

  /** The URLs fetched, in order, and the answer. */
  datatype Run<L> = Run(fetched: seq<string>, answer: Answer<L>)

  const NotFoundDetail := "The company website not found, please check the company name again"
  const NoContentDetail := "Unable to retrieve content from the website."

  /** The URL get_contact_info builds from a domain: the domain can be read back after the fixed prefix. */
  function WebsiteUrl(domain: string): (r: string)
    ensures |r| == 12 + |domain| && r[..12] == "https://www." && r[12..] == domain
  {
    "https://www." + domain
  }

  /** get_contact_info, with `links` extracting each of the four link lists from the content. */
  function Pipeline<L>(records: seq<Candidate>, fetch: string -> FetchOutcome, links: (Pattern, string) -> seq<L>): (r: Run<L>)
    ensures |r.fetched| <= 1
    ensures r.answer.Error? ==> r.answer.status == 404 || r.answer.status == 500
    ensures r.fetched == [] <==> r.answer.Error? && r.answer.status == 404
    ensures r.answer.Bundle? ==> r.fetched == [r.answer.website]
  {
    var domain := GetCompanyDomain(records);
    if Falsy(domain) then Run([], Error(404, NotFoundDetail))
    else
      var url := WebsiteUrl(domain.value);
      match FetchWebsiteContent(fetch(url))
      case Raised(status, detail) => Run([url], Error(status, detail))
      case Returned(content) =>
        if content.None? || content.value == "" then Run([url], Error(500, NoContentDetail))
        else
          var c := content.value;
          Run([url], Bundle(url, ExtractTexts(Phone, c), ExtractTexts(Email, c),
                            links(Facebook, c), links(Instagram, c), links(Twitter, c), links(YouTube, c)))
  }

  /** get_contact_info as written: the link lists hold tuples of groups. */
  function GetContactInfo(records: seq<Candidate>, fetch: string -> FetchOutcome): Run<seq<string>> {
    Pipeline(records, fetch, ExtractTuples)
  }

  /** get_contact_info as intended: the link lists hold the matched URLs. */
  function GetContactInfoIntended(records: seq<Candidate>, fetch: string -> FetchOutcome): Run<string> {
    Pipeline(records, fetch, ExtractTexts)
  }

  // ---------------------------------------------------------------------------
  // Properties
  // ---------------------------------------------------------------------------

  /** The domain is falsy exactly when there is no record or the first record's domain is null or empty. */
  lemma DomainChoice(records: seq<Candidate>)
    ensures Falsy(GetCompanyDomain(records)) <==> records == [] || Falsy(records[0].domain)
    ensures !Falsy(GetCompanyDomain(records)) ==> GetCompanyDomain(records) == records[0].domain
  {
  }

  /** The answer is 404 exactly when the domain is falsy, and then nothing is fetched. */
  lemma NotFoundBeforeFetch<L>(records: seq<Candidate>, fetch: string -> FetchOutcome, links: (Pattern, string) -> seq<L>)
    ensures Pipeline(records, fetch, links).answer == Error(404, NotFoundDetail) <==> Falsy(GetCompanyDomain(records))
    ensures Falsy(GetCompanyDomain(records)) <==> Pipeline(records, fetch, links).fetched == []
  {
  }

  /** With a domain, exactly one URL is fetched: `https://www.` and the domain. */
  lemma FetchesWebsite<L>(records: seq<Candidate>, fetch: string -> FetchOutcome, links: (Pattern, string) -> seq<L>)
    requires !Falsy(GetCompanyDomain(records))
    ensures Pipeline(records, fetch, links).fetched == [WebsiteUrl(records[0].domain.value)]
  {
  }

  /** The page yields content exactly when the GET answers 200 with a non-empty text. */
  predicate Retrieved(outcome: FetchOutcome) {
    outcome.Response? && outcome.status == 200 && outcome.text != ""
  }

  /**
   * With a domain, the answer is a 500 exactly when the page yields no
   * content: the detail names the transport exception, or says the content
   * could not be retrieved. There is no partial bundle.
   */
  lemma RetrievalFailure<L>(records: seq<Candidate>, fetch: string -> FetchOutcome, links: (Pattern, string) -> seq<L>)
    requires !Falsy(GetCompanyDomain(records))
    ensures var outcome := fetch(WebsiteUrl(records[0].domain.value));
      && (Pipeline(records, fetch, links).answer.Error? <==> !Retrieved(outcome))
      && (!Retrieved(outcome) ==> Pipeline(records, fetch, links).answer.status == 500)
      && (outcome.TransportError? ==> Pipeline(records, fetch, links).answer.detail == FetchErrorPrefix + outcome.reason)
      && (outcome.Response? ==> !Retrieved(outcome) ==> Pipeline(records, fetch, links).answer.detail == NoContentDetail)
  {
  }

  /** A bundle is answered exactly when the domain is truthy and the page yields content; its website is the URL fetched. */
  lemma BundleWhenRetrieved<L>(records: seq<Candidate>, fetch: string -> FetchOutcome, links: (Pattern, string) -> seq<L>)
    ensures var run := Pipeline(records, fetch, links);
      run.answer.Bundle? <==> !Falsy(GetCompanyDomain(records)) && Retrieved(fetch(WebsiteUrl(records[0].domain.value)))
    ensures var run := Pipeline(records, fetch, links);
      run.answer.Bundle? ==> run.fetched == [run.answer.website] && run.answer.website == WebsiteUrl(records[0].domain.value)
  {
  }

  /**
   * `xs` is what extract_info returns for pattern `p` on `content`: no
   * duplicates, exactly the texts `findall` found, each a non-empty stretch
   * of the content that the pattern accepts as a whole.
   */
  ghost predicate ListsTexts(p: Pattern, content: string, xs: seq<string>) {
    && NoDuplicates(xs)
    && (forall t :: t in xs <==> t in MatchedTexts(p, content))
    && (forall t :: t in xs ==> 0 < |t| && Accepts(p, t, 0, |t|) && Occurs(t, content))
  }

  /**
   * `gs` is what extract_info returns for the link pattern `p` on `content`
   * as written: no duplicates, exactly the tuples `findall` found, each
   * shaped as the pattern's groups.
   */
  ghost predicate ListsTuples(p: Pattern, content: string, gs: seq<seq<string>>) {
    && NoDuplicates(gs)
    && (forall g :: g in gs <==> g in GroupTuples(p, content))
    && (forall g :: g in gs ==> IsLinkTuple(p, g))
  }

  lemma ExtractedTexts(p: Pattern, content: string)
    ensures ListsTexts(p, content, ExtractTexts(p, content))
  {
    TextsAccepted(p, content);
  }

  lemma ExtractedTuples(p: Pattern, content: string)
    requires IsSocial(p)
    ensures ListsTuples(p, content, ExtractTuples(p, content))
  {
    TuplesShape(p, content);
  }

  /** The text the website answered with, when it answered 200 with a non-empty text. */
  function PageOf<L>(records: seq<Candidate>, fetch: string -> FetchOutcome, links: (Pattern, string) -> seq<L>): string
    requires Pipeline(records, fetch, links).answer.Bundle?
  {
    fetch(WebsiteUrl(records[0].domain.value)).text
  }

  /** The lists of a bundle are extracted from the page: phones and emails by extract_info, the link lists by `links`. */
  lemma BundleLists<L>(records: seq<Candidate>, fetch: string -> FetchOutcome, links: (Pattern, string) -> seq<L>)
    requires Pipeline(records, fetch, links).answer.Bundle?
    ensures var b, c := Pipeline(records, fetch, links).answer, PageOf(records, fetch, links);
      && b.phones == ExtractTexts(Phone, c) && b.emails == ExtractTexts(Email, c)
      && b.facebook == links(Facebook, c) && b.instagram == links(Instagram, c)
      && b.twitter == links(Twitter, c) && b.youtube == links(YouTube, c)
  {
  }

  /** The phone and email lists of a bundle are what extract_info returns for the page. */
  lemma BundleTexts<L>(records: seq<Candidate>, fetch: string -> FetchOutcome, links: (Pattern, string) -> seq<L>)
    requires Pipeline(records, fetch, links).answer.Bundle?
    ensures var b, c := Pipeline(records, fetch, links).answer, PageOf(records, fetch, links);
      ListsTexts(Phone, c, b.phones) && ListsTexts(Email, c, b.emails)
  {
    var c := PageOf(records, fetch, links);
    BundleLists(records, fetch, links);
    ExtractedTexts(Phone, c);
    ExtractedTexts(Email, c);
  }

  /** A bundle as written: phones and emails are texts found on the page, the link lists tuples of groups found there. */
  lemma BundleAsWritten(records: seq<Candidate>, fetch: string -> FetchOutcome)
    requires GetContactInfo(records, fetch).answer.Bundle?
    ensures var b, c := GetContactInfo(records, fetch).answer, PageOf(records, fetch, ExtractTuples);
      && ListsTexts(Phone, c, b.phones) && ListsTexts(Email, c, b.emails)
      && ListsTuples(Facebook, c, b.facebook) && ListsTuples(Instagram, c, b.instagram)
      && ListsTuples(Twitter, c, b.twitter) && ListsTuples(YouTube, c, b.youtube)
  {
    var c := PageOf(records, fetch, ExtractTuples);
    BundleTexts(records, fetch, ExtractTuples);
    BundleLists(records, fetch, ExtractTuples);
    ExtractedTuples(Facebook, c);
    ExtractedTuples(Instagram, c);
    ExtractedTuples(Twitter, c);
    ExtractedTuples(YouTube, c);
  }

  /** A bundle as intended: all six lists are texts found on the page, each accepted by its pattern. */
  lemma BundleIntended(records: seq<Candidate>, fetch: string -> FetchOutcome)
    requires GetContactInfoIntended(records, fetch).answer.Bundle?
    ensures var b, c := GetContactInfoIntended(records, fetch).answer, PageOf(records, fetch, ExtractTexts);
      && ListsTexts(Phone, c, b.phones) && ListsTexts(Email, c, b.emails)
      && ListsTexts(Facebook, c, b.facebook) && ListsTexts(Instagram, c, b.instagram)
      && ListsTexts(Twitter, c, b.twitter) && ListsTexts(YouTube, c, b.youtube)
  {
    var c := PageOf(records, fetch, ExtractTexts);
    BundleTexts(records, fetch, ExtractTexts);
    BundleLists(records, fetch, ExtractTexts);
    ExtractedTexts(Facebook, c);
    ExtractedTexts(Instagram, c);
    ExtractedTexts(Twitter, c);
    ExtractedTexts(YouTube, c);
  }

  /**
   * A company whose first suggested domain is `acme.com` and whose home page
   * is the text `https://www.facebook.com/acmepage`: as written, the Facebook
   * list holds the tuple ("www.", "acmepage"); as intended, the link itself.
   */
  lemma FacebookListExample()
    ensures var records := [Candidate(Some("acme.com"))];
      var fetch := (url: string) => Response(200, "https://www.facebook.com/acmepage");
      && GetContactInfo(records, fetch).answer.facebook == [["www.", "acmepage"]]
      && GetContactInfoIntended(records, fetch).answer.facebook == ["https://www.facebook.com/acmepage"]
  {
    FacebookLinkExample();
  }
}
