# Contact-info scraper: a Dafny model of `get_contact_info`

The service takes a company name and resolves it to a web domain through a
domain-suggestion service. It fetches the home page `https://www.<domain>`
and returns the website with six lists found on the page: phone numbers,
email addresses, and Facebook, Instagram, Twitter and YouTube links. Each
list comes from one regular expression, applied with `re.findall`, with
duplicates removed by `list(set(...))`.

This project models that pipeline in `main.py` as pure functions, and
proves the properties below about them.

- `charclass.dfy`, module `CharClass`. The bracketed character classes of
  the six regular expressions, with `\w` restricted to ASCII
  `[A-Za-z0-9_]`. It also defines the maximal run a greedy repetition
  consumes (`RunEnd`).
- `patterns.dfy`, module `Patterns`. For each of the six patterns it has
  a matcher for one position of the content (`MatchAt`). The matcher
  follows what Python's backtracking engine does for that pattern.
  - A declarative description states which text each pattern accepts
    (`Accepts`) and which groups a match captures (`Captures`).
  - `MatchAtLongest` proves that the matcher returns the longest accepted
    text starting at the position, with its groups. It returns nothing
    exactly when no accepted text starts there.
- `findall.dfy`, module `Findall`. Models `re.findall`: a scan that moves
  left to right over any one-position matcher, resuming at the end of each
  match.
  - `FindallCharacterised` proves that the scan's result is the only
    sequence of leftmost, non-overlapping, longest matches.
  - It defines what `findall` returns: the matched texts (`MatchedTexts`),
    or, for the four link patterns, the tuples of groups (`GroupTuples`).
  - It proves the shape of both.
- `listset.dfy`, module `ListSet`. Models `list(set(xs))` as `Distinct`.
  The result has no duplicates and the same elements as `xs`, and any
  other such list differs from it only in order.
- `contact.dfy`, module `Contact`. Models `get_company_domain`,
  `fetch_website_content`, `extract_info` and `get_contact_info`.
  - The suggestion records and the outcome of the page GET are inputs.
  - A run records the URLs it fetched, and ends in an HTTP error or a
    bundle.
  - `Pipeline` is the endpoint with the link extraction as a parameter.
  - `GetContactInfo` is the code as written, up to the construction of the
    response. Its bundle is the value just before `ContactInfoResponse(...)`
    is built, and its link lists hold tuples of groups. It is not the answer
    the client receives whenever a link list is non-empty (see Findings).
  - `GetContactInfoIntended` has link lists that hold the matched URLs
    (see Findings).
- `wrappers.dfy`, module `Wrappers`. The `Option` type.

The model follows the code where it behaves in ways a reader might not
expect:

- The email pattern `[\w\.-]+@[\w\.-]+` does not require a `.` after the
  `@` (`Findall.EmailNeedsNoDot`).
- A blank company name is not rejected before the lookup. It is passed
  to the suggestion service like any other name.
- Nothing is retried and no timeout is set. A transport exception gives a
  500 whose detail carries the exception's text. A status other than 200,
  or an empty page, gives a 500 "Unable to retrieve content from the
  website.".
- The link lists hold `findall`'s tuples, not URLs. Since the response
  declares them `List[str]`, building it fails on any page with a social
  link, and the endpoint answers a generic 500 (see Findings).

## Model

| member | source | states |
|---|---|---|
| `CharClass.RunEnd` | main.py:59-64 | a greedy repetition of a class stops at the first character outside the class or at the end of the content, and everything it consumes is in the class |
| `CharClass.RunCovers` | main.py:59-64 | a greedy repetition reaches at least as far as any stretch of its class from the same position |
| `Patterns.PhoneAt` | main.py:59 | the phone matcher reports a non-empty match that starts where it is asked and has no groups |
| `Patterns.PhoneAtLongest` | main.py:59 | the phone match at a position is the longest text there of an optional `+`, a digit 1-9 and 7 to 14 more digits; there is no match exactly when no such text starts there |
| `Patterns.EmailAt` | main.py:60 | the email matcher reports a non-empty match that starts where it is asked and has no groups |
| `Patterns.EmailSplit` | main.py:60 | in any accepted email the `@` is where the run of `[\w.-]` from the start ends, and the domain lies inside the run after the `@` |
| `Patterns.EmailAtLongest` | main.py:60 | the email match at a position is the longest accepted email there; there is no match exactly when none starts there |
| `Patterns.EmailOneAt` | main.py:60 | an accepted email holds exactly one `@`, with at least one character on each side |
| `Patterns.HostNotW` | main.py:61-64 | no host starts with `w`, so whether `(www\.)?` took part is determined by the text |
| `Patterns.HeadUnique` | main.py:61-64 | a link has only one head: scheme, `www.` group and YouTube's `user`/`channel` are determined by the text |
| `Patterns.HeadAtComplete` | main.py:61-64 | the engine's try-in-order choice of head finds the head whenever one stands at the position |
| `Patterns.LinkAtLongest` | main.py:61-64 | the link match at a position is the longest accepted link there, with its groups; none exactly when no link starts there |
| `Patterns.MatchAt` | main.py:59-64 | a match of any of the six patterns is non-empty, starts at the position asked and has as many groups as the regular expression |
| `Patterns.MatchAtLongest` | main.py:59-64 | for all six patterns the match at a position is the longest accepted text with its groups, and there is none exactly when nothing accepted starts there |
| `Patterns.AcceptsSlice` | main.py:59-64 | a text a pattern accepts inside the content is accepted on its own |
| `Patterns.MatchGroupsShape` | main.py:61-64 | the groups of a link match are `""` or `"www."`, YouTube's `"user"` or `"channel"`, and a non-empty path of the pattern's path class |
| `Findall.ScanWithOrdered` | main.py:43 | the scan's matches lie in the content, follow one another without overlapping, and each is what the matcher finds at its start |
| `Findall.RunUnique` | main.py:43 | the scan has exactly one run: any sequence that the matcher finds from left to right is the scan's result |
| `Findall.Engine` | main.py:59-64 | the matcher of a pattern reports only non-empty matches inside the content that start where it is asked |
| `Findall.EngineFindsLongest` | main.py:59-64 | the engine finds a match at its start exactly when it is the longest accepted text there, with its groups |
| `Findall.FindallIsRun` | main.py:43 | a leftmost, non-overlapping, longest-match sequence is exactly a run of the engine |
| `Findall.FindallCharacterised` | main.py:43 | `findall`'s matches are leftmost, non-overlapping and longest, and no other sequence is |
| `Findall.MatchesLongest` | main.py:43 | every match found is the longest accepted text at its start with its groups, and the matches are ordered without overlap |
| `Findall.TextsAccepted` | main.py:43 | every text found is non-empty, occurs in the content and is accepted by the pattern as a whole |
| `Findall.TuplesShape` | main.py:61-64 | every tuple a link pattern yields has the shape of that pattern's groups |
| `Findall.InstagramHandles` | main.py:62 | an Instagram handle is non-empty and holds neither `-` nor `/` |
| `Findall.EmailsHaveOneAt` | main.py:60 | every email found holds exactly one `@`, with text on both sides |
| `Findall.OneMatch` | main.py:43 | a longest match with nothing accepted before or after it is all that `findall` finds |
| `Findall.PhoneSkipsLeadingZero` | main.py:59 | in "0123456789" the phone found is "123456789": a number cannot start with `0`, so the match starts inside the digit run |
| `Findall.PhoneStopsAfter15Digits` | main.py:59 | in "12345678901234567" the phone found is "123456789012345": the repetition stops after 14 more digits, and the 2 digits left over are too few for a second match |
| `Findall.EmailNeedsNoDot` | main.py:60 | "a@b" is found as an email: no `.` is needed after the `@` |
| `Findall.FacebookPageFound` | main.py:61 | for `https://www.facebook.com/<name>`, with `<name>` non-empty and made only of `[a-zA-Z0-9.\-_/]`, the match spells the whole link while its tuple is `("www.", name)` |
| `Findall.FacebookLinkExample` | main.py:61 | the same for the page `acmepage` |
| `ListSet.Distinct` | main.py:43 | `list(set(xs))` has no duplicates, holds exactly the elements of `xs`, and is no longer than `xs` |
| `ListSet.DistinctOfDistinct` | main.py:43 | a list without duplicates is unchanged by deduplication |
| `ListSet.DistinctIdempotent` | main.py:43 | deduplicating twice is deduplicating once |
| `ListSet.SameElementsSameMultiset` | main.py:43 | two duplicate-free lists with the same elements differ only in order, so the set's iteration order carries no information |
| `ListSet.DistinctUpToOrder` | main.py:43 | deduplication depends only on which elements the list holds, up to order |
| `Contact.FetchWebsiteContent` | main.py:33-40 | the page text is returned exactly on status 200; any other status returns None; a transport exception raises 500 with the exception's text after "Error fetching website content: " |
| `Contact.DomainChoice` | main.py:29-31 | the domain is falsy exactly when there is no suggestion or the first one's domain is null or empty; otherwise it is the first one's domain |
| `Contact.NotFoundBeforeFetch` | main.py:48-51 | the answer is 404 with the not-found detail exactly when the domain is falsy, and exactly then nothing is fetched |
| `Contact.FetchesWebsite` | main.py:53-54 | with a domain, exactly one URL is fetched: `https://www.` followed by the domain |
| `Contact.RetrievalFailure` | main.py:54-57 | with a domain, the answer is an error exactly when the page does not answer 200 with a non-empty text; that error is a 500 with the exception's text or "Unable to retrieve content from the website." |
| `Contact.BundleWhenRetrieved` | main.py:73-81 | a bundle is returned exactly when the domain is truthy and the page yields content; its website is the one URL fetched, `https://www.` followed by the domain |
| `Contact.ExtractedTexts` | main.py:66-67 | extract_info's list for phones or emails has no duplicates, holds exactly the texts `findall` found, each a non-empty stretch of the page that the pattern accepts |
| `Contact.ExtractedTuples` | main.py:68-71 | extract_info's list for a link pattern has no duplicates, holds exactly the tuples `findall` found, each shaped as the pattern's groups |
| `Contact.BundleLists` | main.py:66-81 | the lists of a bundle are extracted from the text the website answered with |
| `Contact.BundleTexts` | main.py:66-67 | a bundle's phones and emails are extract_info's lists for the page |
| `Contact.BundleAsWritten` | main.py:66-81 | as written, a bundle's phone and email lists are texts found on the page and its four link lists are duplicate-free tuples of groups found there |
| `Contact.BundleIntended` | main.py:66-81 | as intended, all six lists of a bundle are duplicate-free texts found on the page, each accepted by its pattern |
| `Contact.FacebookListExample` | main.py:68 | for a page whose text is `https://www.facebook.com/acmepage`, the code's Facebook list is `[("www.", "acmepage")]` and the intended one is the link |
| `Contact.GetCompanyDomain` | main.py:26-31 | computes the first suggestion's domain, or None when there is none; its contract is `Contact.DomainChoice` |
| `Contact.Falsy` | main.py:50 | Python's `not domain` on a domain: None or the empty string; used by `Contact.DomainChoice` and `Contact.NotFoundBeforeFetch` |
| `Contact.WebsiteUrl` | main.py:53 | the URL is `https://www.` followed by the domain, which can be read back after that prefix |
| `Contact.ExtractTexts` | main.py:42-43 | computes `extract_info` for a pattern whose `findall` yields texts; its contract is `Contact.ExtractedTexts` |
| `Contact.ExtractTuples` | main.py:42-43 | computes `extract_info` for a link pattern, whose `findall` yields tuples; its contract is `Contact.ExtractedTuples` |
| `Contact.Pipeline` | main.py:46-81 | at most one URL is fetched; every error is a 404 or a 500; nothing is fetched exactly when the answer is the 404; a bundle's website is the URL fetched; the full behaviour is stated by `Contact.NotFoundBeforeFetch`, `Contact.FetchesWebsite`, `Contact.RetrievalFailure` and `Contact.BundleWhenRetrieved` |
| `Contact.GetContactInfo` | main.py:45-81 | the endpoint as written, up to building the response; its contract is `Contact.NotFoundBeforeFetch`, `Contact.RetrievalFailure`, `Contact.BundleWhenRetrieved` and `Contact.BundleAsWritten` |
| `Contact.GetContactInfoIntended` | main.py:66-81 | the endpoint with URL link lists; its contract is `Contact.NotFoundBeforeFetch`, `Contact.RetrievalFailure`, `Contact.BundleWhenRetrieved` and `Contact.BundleIntended` |
| `Findall.ScanWith` | main.py:43 | computes the left-to-right scan of `findall` over a one-position matcher; its contracts are `Findall.ScanWithOrdered` and `Findall.RunUnique` |
| `Findall.Matches` | main.py:43 | computes `findall`'s matches for a pattern; its contracts are `Findall.FindallCharacterised` and `Findall.MatchesLongest` |
| `Findall.MatchedTexts` | main.py:43 | computes what `findall` returns for a pattern without groups; its contract is `Findall.TextsAccepted` |
| `Findall.GroupTuples` | main.py:43 | computes what `findall` returns for a pattern with groups; its contract is `Findall.TuplesShape` |
| `Patterns.HeadAt` | main.py:61-64 | finds a head (scheme, `www.` group, YouTube's kind, host) at the position, and reports none only when no head stands there |
| `Patterns.PathAt` | main.py:61-64 | after a head, the path match is an accepted link with its groups |
| `Patterns.LinkAt` | main.py:61-64 | a link match is non-empty, starts where it is asked, has the pattern's group count, and is accepted with those groups; `Patterns.LinkAtLongest` states that it is the longest |

## Left out

- The HTTP calls are inputs. These are the suggestion lookup with
  `response.json()` and the page GET with `verify=False`. The lookup's
  result is a sequence of records; the page GET's result is a status and
  text, or a transport exception with its message.
- Suggestion replies other than a list of objects whose `domain` is null or
  a string are left out. `Contact.Candidate` holds an `Option<string>`
  domain, so none of them can be written. In the code they behave as
  follows:
  - A record without a `domain` key, a first record that is not an object,
    or a non-empty JSON object in place of the list raises at `data[0]['domain']`.
    The request then ends as an unhandled server error.
  - An empty JSON object has length 0, so `get_company_domain` returns
    None and the answer is the 404.
  - A domain that is not a string is not an error. A falsy one (`0`,
    `false`, `[]`, `{}`) gives the 404 with the not-found detail. A truthy
    one (`42`, `true`) is formatted into the URL (`https://www.42`,
    `https://www.True`) and fetched. The fetch then has its usual outcomes,
    including the handled 500 for a transport exception.
- The FastAPI application, the request and response pydantic models, the
  routing, and `uvicorn.run` are left out. In particular, the validation
  of the `ContactInfoResponse` lists as `List[str]` is not modelled. Its
  consequence for the code as written: a tuple in `facebook_links`,
  `instagram_links`, `twitter_links` or `youtube_links` fails that
  validation, so on any page with a social link the endpoint answers a
  generic 500 instead of `Contact.GetContactInfo`'s bundle. That bundle is
  the value just before the response is built.
- The failures of the suggestion lookup are left out. `requests.get` on the
  suggestion URL can raise a `RequestException`, and `response.json()`
  raises on a reply that is not JSON. Neither is caught, so the request
  ends as an unhandled server error. `Contact.GetCompanyDomain` and
  `Contact.Pipeline` take the decoded records as input, so they always
  have a suggestion list to work on.
- `\w` is ASCII only; Python's `str` patterns also accept other Unicode
  letters and digits.
- `list(set(...))` lists elements in the set's iteration order.
  `ListSet.Distinct` keeps the first occurrence of each element instead.
  The lemmas state only membership and absence of duplicates, and that
  any two such lists are equal up to order.
- Python's `re` engine in general is left out. Each of the six patterns
  is modelled as its own matcher, and the matchers are proved to pick the
  longest accepted text. That coincides with what backtracking does for
  these patterns.
- The end-to-end run on a page with an email, a phone and a link is not
  stated as one lemma. Its parts are stated instead:
  `Findall.FacebookLinkExample`, `Contact.FacebookListExample` and the
  general lemmas about each list.

## Findings

| source | as written | input that shows it | evidently intended | confidence | as-written member | corrected member |
|---|---|---|---|---|---|---|
| main.py:68-71 | the link regexes have capture groups, so `re.findall` returns tuples of groups and the four link lists hold tuples such as `("www.", "acmepage")`; these lists are declared `List[str]` in the response (main.py:21-24), so building `ContactInfoResponse` fails validation and the endpoint answers a generic 500 on any page with a social link; the bundle of `Contact.GetContactInfo` is the value just before the response is built, not the answer | a page whose text is `https://www.facebook.com/acmepage`, for the domain `acme.com` | each link list holds the matched links, here `"https://www.facebook.com/acmepage"` | not executed | `Contact.GetContactInfo`, shown by `Contact.FacebookListExample` | `Contact.GetContactInfoIntended`, with `Contact.BundleIntended` |
