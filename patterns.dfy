/**
 * The six extraction patterns of `get_contact_info` (main.py:59-64), each as
 * a matcher that tries the pattern at one position of the content, the way
 * Python's backtracking `re` engine does, and as a declarative description of
 * the text the pattern accepts (`Accepts`).
 *
 *   Phone      \+?[1-9][0-9]{7,14}
 *   Email      [\w\.-]+@[\w\.-]+
 *   Facebook   https?://(www\.)?facebook\.com/([a-zA-Z0-9.\-_/]+)/?
 *   Instagram  https?://(www\.)?instagram\.com/([a-zA-Z0-9._]+)/?
 *   Twitter    https?://(www\.)?twitter\.com/([a-zA-Z0-9.\-_/]+)/?
 *   YouTube    https?://(www\.)?youtube\.com/(user|channel)/([a-zA-Z0-9.\-_/]+)/?
 *
 * The main result, MatchAtLongest, states that for these six patterns the
 * engine's first successful match at a position is the longest accepted text
 * starting there, and that it fails exactly when no accepted text starts there.
 */
module Patterns {
  import opened Wrappers
  import opened CharClass

  datatype Pattern = Phone | Email | Facebook | Instagram | Twitter | YouTube

  /** The four social-platform patterns, whose matches carry capture groups. */
  predicate IsSocial(p: Pattern) {
    p != Phone && p != Email
  }

  /** Number of capture groups of the pattern's regular expression. */
  function GroupCount(p: Pattern): nat {
    match p
    case Phone | Email => 0
    case Facebook | Instagram | Twitter => 2
    case YouTube => 3
  }

  /**
   * One match: group 0 is `s[start..end]`; `groups` are the capture groups in
   * order, an optional group that did not take part being "" (as `findall`
   * reports it).
   */
  datatype Match = Match(start: nat, end: nat, groups: seq<string>)

  // ---------------------------------------------------------------------------
  // The text each pattern accepts: s[i..e], stated by positions in s.
  // ---------------------------------------------------------------------------

  /** `[1-9][0-9]{7,14}` is `s[j..e]`: 8 to 15 ASCII digits, the first one not `0`. */
  predicate IsPhoneDigits(s: string, j: nat, e: nat) {
    j + 8 <= e <= j + 15 && e <= |s| && In(s[j], NonZeroDigit) && AllIn(s, j + 1, e, Digit)
  }

  /** `\+?[1-9][0-9]{7,14}` is `s[i..e]`. */
  predicate IsPhone(s: string, i: nat, e: nat) {
    IsPhoneDigits(s, i, e) || (i < |s| && s[i] == '+' && IsPhoneDigits(s, i + 1, e))
  }

  /** `[\w\.-]+@[\w\.-]+` is `s[i..e]`; no `.` is required after the `@`. */
  ghost predicate IsEmail(s: string, i: nat, e: nat) {
    exists at :: i < at < e - 1 && e <= |s| && s[at] == '@' && AllIn(s, i, at, EmailChar) && AllIn(s, at + 1, e, EmailChar)
  }

  function Host(p: Pattern): string
    requires IsSocial(p)
  {
    match p
    case Facebook => "facebook.com/"
    case Instagram => "instagram.com/"
    case Twitter => "twitter.com/"
    case YouTube => "youtube.com/"
  }

  /** No host starts with `w`, so `(www\.)?` is never ambiguous. */
  lemma HostNotW(p: Pattern)
    requires IsSocial(p)
    ensures 0 < |Host(p)| && Host(p)[0] != 'w'
  {
  }

  function Scheme(secure: bool): string {
    if secure then "https://" else "http://"
  }

  /** The text of the optional group `(www\.)?`. */
  function WwwGroup(www: bool): string {
    if www then "www." else ""
  }

  /** What YouTube's `(user|channel)` group matched; `Plain` for the links that have no such group. */
  datatype Kind = Plain | User | Channel

  /** Only YouTube links, and all of them, carry a `user` or `channel` part. */
  predicate KindFits(p: Pattern, k: Kind) {
    (p == YouTube) == (k != Plain)
  }

  /** What `(user|channel)/` consumes after the host. */
  function KindText(k: Kind): string {
    match k
    case Plain => ""
    case User => "user/"
    case Channel => "channel/"
  }

  /** The text of the `(user|channel)` group. */
  function KindName(k: Kind): string {
    match k
    case Plain => ""
    case User => "user"
    case Channel => "channel"
  }

  /** The class of the path group: Instagram handles exclude `-` and `/`. */
  function TailClass(p: Pattern): Class {
    if p == Instagram then HandleChar else PathChar
  }

  /** The fixed part of a link, up to where the path group starts. */
  datatype LinkHead = LinkHead(secure: bool, www: bool, kind: Kind)

  /** `https?://(www\.)?` then `host` stand one after another in `s` from `j`. */
  predicate PrefixIsAt(s: string, j: nat, host: string, secure: bool, www: bool) {
    var a := j + |Scheme(secure)|;
    HasAt(s, j, Scheme(secure)) && HasAt(s, a, WwwGroup(www)) && HasAt(s, a + |WwwGroup(www)|, host)
  }

  function PrefixLen(host: string, secure: bool, www: bool): nat {
    |Scheme(secure)| + |WwwGroup(www)| + |host|
  }

  /** The pieces of head `h` of a link to `host` stand one after another in `s` from `j`. */
  predicate HeadIsAt(p: Pattern, host: string, s: string, j: nat, h: LinkHead) {
    PrefixIsAt(s, j, host, h.secure, h.www) && HasAt(s, j + PrefixLen(host, h.secure, h.www), KindText(h.kind))
  }

  function HeadLen(p: Pattern, host: string, h: LinkHead): nat {
    PrefixLen(host, h.secure, h.www) + |KindText(h.kind)|
  }

  /**
   * `([...]+)/?` is `s[d..e]`. For Facebook, Twitter and YouTube the class
   * contains `/`, so an optional trailing slash is already a path character.
   */
  predicate IsLinkTail(p: Pattern, s: string, d: nat, e: nat) {
    if p == Instagram then
      (d < e && AllIn(s, d, e, HandleChar)) || (d + 1 < e <= |s| && s[e - 1] == '/' && AllIn(s, d, e - 1, HandleChar))
    else
      d < e && AllIn(s, d, e, PathChar)
  }

  /** `s[i..e]` is a link to `host` with head `h`. */
  predicate IsLinkWith(p: Pattern, host: string, s: string, i: nat, e: nat, h: LinkHead) {
    KindFits(p, h.kind) && HeadIsAt(p, host, s, i, h) && IsLinkTail(p, s, i + HeadLen(p, host, h), e)
  }

  /** The link pattern `p`, with `host` in place of its host, accepts `s[i..e]`. */
  ghost predicate LinkAccepts(p: Pattern, host: string, s: string, i: nat, e: nat) {
    exists h: LinkHead :: IsLinkWith(p, host, s, i, e, h)
  }

  /** The pattern's regular expression accepts `s[i..e]` as a whole. */
  ghost predicate Accepts(p: Pattern, s: string, i: nat, e: nat) {
    if p == Phone then IsPhone(s, i, e)
    else if p == Email then IsEmail(s, i, e)
    else LinkAccepts(p, Host(p), s, i, e)
  }

  // ---------------------------------------------------------------------------
  // Capture groups.
  // ---------------------------------------------------------------------------

  /** Where the path group of a link match ending at `end` stops: before Instagram's optional `/`. */
  function PathEnd(p: Pattern, s: string, end: nat): nat
    requires 0 < end <= |s|
  {
    if p == Instagram && s[end - 1] == '/' then end - 1 else end
  }

  function LinkGroups(p: Pattern, h: LinkHead, path: string): (g: seq<string>)
    ensures |g| == if p == YouTube then 3 else 2
  {
    if p == YouTube then [WwwGroup(h.www), KindName(h.kind), path] else [WwwGroup(h.www), path]
  }

  /**
   * `m.groups` are the capture groups of the link match `m`: the
   * `www.`-or-empty part of its head, YouTube's `user`/`channel`, and the
   * path, which runs from the end of the head to the end of the match or, for
   * Instagram, to a final `/`.
   */
  ghost predicate LinkCaptures(p: Pattern, host: string, s: string, m: Match) {
    exists h: LinkHead :: CapturedWith(p, host, s, m, h)
  }

  /** `m.groups` are the groups of a link to `host` with head `h`. */
  predicate CapturedWith(p: Pattern, host: string, s: string, m: Match, h: LinkHead) {
    && 0 < m.end <= |s|
    && KindFits(p, h.kind)
    && HeadIsAt(p, host, s, m.start, h)
    && m.start + HeadLen(p, host, h) <= PathEnd(p, s, m.end)
    && m.groups == LinkGroups(p, h, s[m.start + HeadLen(p, host, h)..PathEnd(p, s, m.end)])
  }

  /** `m.groups` are the capture groups of the match `m` (none for Phone and Email). */
  ghost predicate Captures(p: Pattern, s: string, m: Match) {
    if IsSocial(p) then LinkCaptures(p, Host(p), s, m) else m.groups == []
  }

  // ---------------------------------------------------------------------------
  // What a correct matcher at position i returns.
  // ---------------------------------------------------------------------------

  /** `s[i..e]` is accepted and no longer text from `i` is. */
  ghost predicate IsLongestAt(p: Pattern, s: string, i: nat, e: nat) {
    i < e <= |s| && Accepts(p, s, i, e) && forall e' :: e < e' <= |s| ==> !Accepts(p, s, i, e')
  }

  /** No accepted text starts at `i`. */
  ghost predicate NoneStartsAt(p: Pattern, s: string, i: nat) {
    forall e :: i < e <= |s| ==> !Accepts(p, s, i, e)
  }

  ghost predicate IsLongestMatch(p: Pattern, s: string, m: Match) {
    IsLongestAt(p, s, m.start, m.end) && Captures(p, s, m)
  }

  // ---------------------------------------------------------------------------
  // Phone
  // ---------------------------------------------------------------------------

  /**
   * `\+?` takes a `+` when there is one (dropping it cannot help: `[1-9]` then
   * faces the `+`); `[1-9]`; then `{7,14}` takes as many digits as it can, up
   * to 14, and fails below 7.
   */
  function PhoneAt(s: string, i: nat): (r: Option<Match>)
    requires i <= |s|
    ensures r.Some? ==> r.value.start == i < r.value.end <= |s| && r.value.groups == []
  {
    var j := if i < |s| && s[i] == '+' then i + 1 else i;
    if j < |s| && In(s[j], NonZeroDigit) then
      var more := RunEnd(s, j + 1, Digit) - (j + 1);
      if more >= 7 then Some(Match(i, j + 1 + (if more < 14 then more else 14), [])) else None
    else
      None
  }

  lemma {:induction false} PhoneAtLongest(s: string, i: nat)
    requires i <= |s|
    ensures PhoneAt(s, i).Some? ==> IsLongestMatch(Phone, s, PhoneAt(s, i).value)
    ensures PhoneAt(s, i).None? ==> NoneStartsAt(Phone, s, i)
  {
    var j := if i < |s| && s[i] == '+' then i + 1 else i;
    forall e | i < e <= |s| && IsPhone(s, i, e)
      ensures IsPhoneDigits(s, j, e) && RunEnd(s, j + 1, Digit) >= e
    {
      RunCovers(s, j + 1, e, Digit);
    }
  }

  // ---------------------------------------------------------------------------
  // Email
  // ---------------------------------------------------------------------------

  /**
   * The first `[\w\.-]+` takes the whole run and cannot give anything back
   * (a shorter run is followed by a class character, not `@`); the second one
   * takes the whole run after the `@`.
   */
  function EmailAt(s: string, i: nat): (r: Option<Match>)
    requires i <= |s|
    ensures r.Some? ==> r.value.start == i < r.value.end <= |s| && r.value.groups == []
  {
    var j := RunEnd(s, i, EmailChar);
    if i < j < |s| && s[j] == '@' then
      var k := RunEnd(s, j + 1, EmailChar);
      if j + 1 < k then Some(Match(i, k, [])) else None
    else
      None
  }

  /** An accepted email `s[i..e]` has its `@` where the run from `i` ends, and its domain inside the run after it. */
  lemma EmailSplit(s: string, i: nat, e: nat)
    requires IsEmail(s, i, e)
    ensures var j := RunEnd(s, i, EmailChar);
      i < j < e - 1 && s[j] == '@' && RunEnd(s, j + 1, EmailChar) >= e
  {
    var at :| i < at < e - 1 && e <= |s| && s[at] == '@' && AllIn(s, i, at, EmailChar) && AllIn(s, at + 1, e, EmailChar);
    RunCovers(s, i, at, EmailChar);
    RunCovers(s, at + 1, e, EmailChar);
    assert !In(s[at], EmailChar);
  }

  /** An accepted email holds exactly one `@`, with at least one character on each side of it. */
  lemma EmailOneAt(t: string)
    requires IsEmail(t, 0, |t|)
    ensures exists at :: 0 < at < |t| - 1 && t[at] == '@' && forall j :: 0 <= j < |t| && t[j] == '@' ==> j == at
  {
    var at :| 0 < at < |t| - 1 && t[at] == '@' && AllIn(t, 0, at, EmailChar) && AllIn(t, at + 1, |t|, EmailChar);
    forall j | 0 <= j < |t| && t[j] == '@'
      ensures j == at
    {
      assert !In(t[j], EmailChar);
    }
  }

  lemma {:induction false} EmailAtLongest(s: string, i: nat)
    requires i <= |s|
    ensures EmailAt(s, i).Some? ==> IsLongestMatch(Email, s, EmailAt(s, i).value)
    ensures EmailAt(s, i).None? ==> NoneStartsAt(Email, s, i)
  {
    forall e | i < e <= |s| && IsEmail(s, i, e)
      ensures var j := RunEnd(s, i, EmailChar);
        i < j < e - 1 && s[j] == '@' && RunEnd(s, j + 1, EmailChar) >= e
    {
      EmailSplit(s, i, e);
    }
    if EmailAt(s, i).Some? {
      var j := RunEnd(s, i, EmailChar);
      assert IsEmail(s, i, EmailAt(s, i).value.end) by {
        assert s[j] == '@';
      }
    }
  }

  // ---------------------------------------------------------------------------
  // Links
  // ---------------------------------------------------------------------------

  /**
   * The heads of pattern `p` in the order the engine tries them: `https?`
   * first with its `s`, then without; inside each, `(www\.)?` first with
   * `www.`, then without; inside each, `(user|channel)` first `user`.
   */
  function Candidates(p: Pattern): (hs: seq<LinkHead>)
    ensures forall h: LinkHead :: h in hs <==> KindFits(p, h.kind)
  {
    if p == YouTube then
      [ LinkHead(true, true, User), LinkHead(true, true, Channel),
        LinkHead(true, false, User), LinkHead(true, false, Channel),
        LinkHead(false, true, User), LinkHead(false, true, Channel),
        LinkHead(false, false, User), LinkHead(false, false, Channel) ]
    else
      [ LinkHead(true, true, Plain), LinkHead(true, false, Plain),
        LinkHead(false, true, Plain), LinkHead(false, false, Plain) ]
  }

  /** The first head of `hs` whose pieces are at `i`: the engine backtracking through the alternatives. */
  function FirstHead(p: Pattern, host: string, s: string, i: nat, hs: seq<LinkHead>): (r: Option<LinkHead>)
    ensures r.Some? ==> r.value in hs && HeadIsAt(p, host, s, i, r.value)
    ensures r.None? ==> forall h :: h in hs ==> !HeadIsAt(p, host, s, i, h)
  {
    if hs == [] then None
    else if HeadIsAt(p, host, s, i, hs[0]) then Some(hs[0])
    else FirstHead(p, host, s, i, hs[1..])
  }

  /** The head of a link to `host` at `i`: the scheme, `www.` and host, then YouTube's `(user|channel)/`. */
  function HeadAt(p: Pattern, host: string, s: string, i: nat): (r: Option<LinkHead>)
    ensures r.Some? ==> KindFits(p, r.value.kind) && HeadIsAt(p, host, s, i, r.value)
    ensures r.None? ==> forall h: LinkHead :: KindFits(p, h.kind) ==> !HeadIsAt(p, host, s, i, h)
  {
    FirstHead(p, host, s, i, Candidates(p))
  }

  /** `http://` and `https://` differ at their fifth character. */
  lemma SchemeDetermined(s: string, i: nat, secure: bool)
    requires HasAt(s, i, Scheme(secure))
    ensures HasAt(s, i, "https://") == secure
  {
    HasAtIndex(s, i, Scheme(secure), 4);
    if HasAt(s, i, "https://") {
      HasAtIndex(s, i, "https://", 4);
    }
  }

  /** A host that does not start with `w` leaves no choice for `(www\.)?`. */
  lemma WwwDetermined(s: string, a: nat, host: string, www: bool)
    requires 0 < |host| && host[0] != 'w'
    requires HasAt(s, a, WwwGroup(www)) && HasAt(s, a + |WwwGroup(www)|, host)
    ensures HasAt(s, a, "www.") == www
  {
    if !www {
      HasAtIndex(s, a, host, 0);
    }
  }

  /** `user/` and `channel/` differ at their first character. */
  lemma KindDetermined(p: Pattern, s: string, c: nat, k1: Kind, k2: Kind)
    requires KindFits(p, k1) && KindFits(p, k2)
    requires HasAt(s, c, KindText(k1)) && HasAt(s, c, KindText(k2))
    ensures k1 == k2
  {
  }

  /** At most one `https?://(www\.)?host` stands at `i`. */
  lemma PrefixUnique(s: string, i: nat, host: string, secure1: bool, www1: bool, secure2: bool, www2: bool)
    requires 0 < |host| && host[0] != 'w'
    requires PrefixIsAt(s, i, host, secure1, www1) && PrefixIsAt(s, i, host, secure2, www2)
    ensures secure1 == secure2 && www1 == www2
  {
    SchemeDetermined(s, i, secure1);
    SchemeDetermined(s, i, secure2);
    WwwDetermined(s, i + |Scheme(secure1)|, host, www1);
    WwwDetermined(s, i + |Scheme(secure1)|, host, www2);
  }

  /** At most one head of a link to `host` stands at `i`: the pattern's optional parts never leave a choice. */
  lemma HeadUnique(p: Pattern, host: string, s: string, i: nat, h1: LinkHead, h2: LinkHead)
    requires 0 < |host| && host[0] != 'w'
    requires KindFits(p, h1.kind) && HeadIsAt(p, host, s, i, h1)
    requires KindFits(p, h2.kind) && HeadIsAt(p, host, s, i, h2)
    ensures h1 == h2
  {
    PrefixUnique(s, i, host, h1.secure, h1.www, h2.secure, h2.www);
    KindDetermined(p, s, i + PrefixLen(host, h1.secure, h1.www), h1.kind, h2.kind);
  }

  /** HeadAt finds every head whose pieces are at `i`. */
  lemma HeadAtComplete(p: Pattern, host: string, s: string, i: nat, h: LinkHead)
    requires 0 < |host| && host[0] != 'w'
    requires KindFits(p, h.kind) && HeadIsAt(p, host, s, i, h)
    ensures HeadAt(p, host, s, i) == Some(h)
  {
    HeadUnique(p, host, s, i, HeadAt(p, host, s, i).value, h);
  }

  /** Where `([...]+)/?` stops after a link head ending at `d`, or `d` when the path is empty. */
  function LinkEnd(p: Pattern, s: string, d: nat): (end: nat)
    requires d <= |s|
    ensures d <= end <= |s|
  {
    var e := RunEnd(s, d, TailClass(p));
    if p == Instagram && d < e < |s| && s[e] == '/' then e + 1 else e
  }

  /** The greedy path from `d` is a valid link tail, and its group ends where the run of its class ends. */
  lemma LinkEndTail(p: Pattern, s: string, d: nat)
    requires d <= |s|
    ensures var e := RunEnd(s, d, TailClass(p));
      d < e ==> IsLinkTail(p, s, d, LinkEnd(p, s, d)) && PathEnd(p, s, LinkEnd(p, s, d)) == e
  {
  }

  /** A head at `i` followed by a non-empty path `s[d..e]` and an end at `end` is an accepted link with these groups. */
  lemma LinkAccepted(p: Pattern, host: string, s: string, i: nat, h: LinkHead, e: nat, end: nat)
    requires KindFits(p, h.kind) && HeadIsAt(p, host, s, i, h)
    requires var d := i + HeadLen(p, host, h);
      d < e <= end <= |s| && IsLinkTail(p, s, d, end) && PathEnd(p, s, end) == e
    ensures LinkAccepts(p, host, s, i, end)
    ensures LinkCaptures(p, host, s, Match(i, end, LinkGroups(p, h, s[i + HeadLen(p, host, h)..e])))
  {
    assert IsLinkWith(p, host, s, i, end, h);
    assert CapturedWith(p, host, s, Match(i, end, LinkGroups(p, h, s[i + HeadLen(p, host, h)..e])), h);
  }

  /**
   * After head `h` at `i`, `([...]+)` takes the whole run of its class; the
   * final `/?` then takes a `/` only for Instagram, since the other three
   * classes already contain `/`. What it finds is an accepted link, with its
   * groups.
   */
  function PathAt(p: Pattern, host: string, s: string, i: nat, h: LinkHead): (r: Option<Match>)
    requires KindFits(p, h.kind) && HeadIsAt(p, host, s, i, h)
    ensures r.Some? ==> r.value.start == i < r.value.end <= |s| && |r.value.groups| == if p == YouTube then 3 else 2
    ensures r.Some? ==> LinkAccepts(p, host, s, i, r.value.end) && LinkCaptures(p, host, s, r.value)
  {
    var d := i + HeadLen(p, host, h);
    var e := RunEnd(s, d, TailClass(p));
    if e == d then None
    else
      LinkEndTail(p, s, d);
      LinkAccepted(p, host, s, i, h, e, LinkEnd(p, s, d));
      Some(Match(i, LinkEnd(p, s, d), LinkGroups(p, h, s[d..e])))
  }

  /** A link at `i`: its head, then its path. */
  function LinkAt(p: Pattern, host: string, s: string, i: nat): (r: Option<Match>)
    ensures r.Some? ==> r.value.start == i < r.value.end <= |s| && |r.value.groups| == if p == YouTube then 3 else 2
    ensures r.Some? ==> LinkAccepts(p, host, s, i, r.value.end) && LinkCaptures(p, host, s, r.value)
  {
    match HeadAt(p, host, s, i)
    case None => None
    case Some(h) => PathAt(p, host, s, i, h)
  }

  /** The path of an accepted link lies inside the run of its class from `d`, apart from Instagram's optional `/`. */
  lemma TailSplit(p: Pattern, s: string, d: nat, e: nat)
    requires IsLinkTail(p, s, d, e)
    ensures d < e <= |s|
    ensures d < RunEnd(s, d, TailClass(p)) && e <= LinkEnd(p, s, d)
  {
    if p == Instagram && !(d < e && AllIn(s, d, e, HandleChar)) {
      RunCovers(s, d, e - 1, HandleChar);
    } else {
      RunCovers(s, d, e, TailClass(p));
    }
  }

  /** An accepted link with the head HeadAt finds is no longer than LinkAt's match. */
  lemma LinkAtComplete(p: Pattern, host: string, s: string, i: nat, e: nat, h: LinkHead)
    requires HeadAt(p, host, s, i) == Some(h)
    requires IsLinkTail(p, s, i + HeadLen(p, host, h), e)
    ensures LinkAt(p, host, s, i).Some? && e <= LinkAt(p, host, s, i).value.end
  {
    var d := i + HeadLen(p, host, h);
    TailSplit(p, s, d, e);
    LinkAtFromHead(p, host, s, i, h);
  }

  /** With head `h` at `i` and a non-empty path after it, LinkAt matches up to LinkEnd. */
  lemma LinkAtFromHead(p: Pattern, host: string, s: string, i: nat, h: LinkHead)
    requires HeadAt(p, host, s, i) == Some(h)
    requires var d := i + HeadLen(p, host, h); d <= |s| && d < RunEnd(s, d, TailClass(p))
    ensures LinkAt(p, host, s, i).Some? && LinkAt(p, host, s, i).value.end == LinkEnd(p, s, i + HeadLen(p, host, h))
  {
    assert LinkAt(p, host, s, i) == PathAt(p, host, s, i, h);
  }

  /** LinkAt's match is the longest accepted link from `i`; it fails exactly when none starts there. */
  lemma LinkAtLongest(p: Pattern, host: string, s: string, i: nat)
    requires 0 < |host| && host[0] != 'w' && i <= |s|
    ensures LinkAt(p, host, s, i).Some? ==> forall e :: LinkAt(p, host, s, i).value.end < e <= |s| ==> !LinkAccepts(p, host, s, i, e)
    ensures LinkAt(p, host, s, i).None? ==> forall e :: i < e <= |s| ==> !LinkAccepts(p, host, s, i, e)
  {
    forall e | i < e <= |s| && LinkAccepts(p, host, s, i, e)
      ensures LinkAt(p, host, s, i).Some? && e <= LinkAt(p, host, s, i).value.end
    {
      var h: LinkHead :| IsLinkWith(p, host, s, i, e, h);
      HeadAtComplete(p, host, s, i, h);
      LinkAtComplete(p, host, s, i, e, h);
    }
  }

  // ---------------------------------------------------------------------------
  // All six
  // ---------------------------------------------------------------------------

  /** The engine's attempt to match `p` at position `i` of `s`. */
  function MatchAt(p: Pattern, s: string, i: nat): (r: Option<Match>)
    requires i <= |s|
    ensures r.Some? ==> r.value.start == i < r.value.end <= |s| && |r.value.groups| == GroupCount(p)
  {
    if p == Phone then PhoneAt(s, i)
    else if p == Email then EmailAt(s, i)
    else LinkAt(p, Host(p), s, i)
  }

  /**
   * Both directions: a match is found at `i` exactly when some accepted text
   * starts at `i`, and then it is the longest one, with its capture groups.
   */
  lemma MatchAtLongest(p: Pattern, s: string, i: nat)
    requires i <= |s|
    ensures MatchAt(p, s, i).Some? ==> IsLongestMatch(p, s, MatchAt(p, s, i).value)
    ensures MatchAt(p, s, i).None? ==> NoneStartsAt(p, s, i)
  {
    if p == Phone {
      PhoneAtLongest(s, i);
    } else if p == Email {
      EmailAtLongest(s, i);
    } else {
      SocialMatchLongest(p, s, i);
    }
  }

  lemma SocialMatchLongest(p: Pattern, s: string, i: nat)
    requires IsSocial(p) && i <= |s|
    ensures MatchAt(p, s, i).Some? ==> IsLongestMatch(p, s, MatchAt(p, s, i).value)
    ensures MatchAt(p, s, i).None? ==> NoneStartsAt(p, s, i)
  {
    var host := Host(p);
    HostNotW(p);
    LinkAtLongest(p, host, s, i);
    var r := MatchAt(p, s, i);
    assert r == LinkAt(p, host, s, i);
    if r.Some? {
      assert Accepts(p, s, i, r.value.end) && Captures(p, s, r.value);
      forall e | r.value.end < e <= |s|
        ensures !Accepts(p, s, i, e)
      {
        assert !LinkAccepts(p, host, s, i, e);
      }
    } else {
      forall e | i < e <= |s|
        ensures !Accepts(p, s, i, e)
      {
        assert !LinkAccepts(p, host, s, i, e);
      }
    }
  }

  // ---------------------------------------------------------------------------
  // A matched text read on its own
  // ---------------------------------------------------------------------------

  lemma PhoneSlice(s: string, i: nat, e: nat)
    requires IsPhone(s, i, e)
    ensures IsPhone(s[i..e], 0, e - i)
  {
    if IsPhoneDigits(s, i, e) {
      AllInSlice(s, i, e, i + 1, e, Digit);
    } else {
      AllInSlice(s, i, e, i + 2, e, Digit);
    }
  }

  lemma EmailSlice(s: string, i: nat, e: nat)
    requires IsEmail(s, i, e)
    ensures IsEmail(s[i..e], 0, e - i)
  {
    var at :| i < at < e - 1 && e <= |s| && s[at] == '@' && AllIn(s, i, at, EmailChar) && AllIn(s, at + 1, e, EmailChar);
    AllInSlice(s, i, e, i, at, EmailChar);
    AllInSlice(s, i, e, at + 1, e, EmailChar);
    assert s[i..e][at - i] == '@';
  }

  lemma PrefixSlice(host: string, secure: bool, www: bool, s: string, i: nat, e: nat)
    requires i + PrefixLen(host, secure, www) <= e <= |s| && PrefixIsAt(s, i, host, secure, www)
    ensures PrefixIsAt(s[i..e], 0, host, secure, www)
  {
    var a := |Scheme(secure)|;
    HasAtSlice(s, i, e, 0, Scheme(secure));
    HasAtSlice(s, i, e, a, WwwGroup(www));
    HasAtSlice(s, i, e, a + |WwwGroup(www)|, host);
  }

  lemma HeadSlice(p: Pattern, host: string, s: string, i: nat, e: nat, h: LinkHead)
    requires i + HeadLen(p, host, h) <= e <= |s| && HeadIsAt(p, host, s, i, h)
    ensures HeadIsAt(p, host, s[i..e], 0, h)
  {
    PrefixSlice(host, h.secure, h.www, s, i, e);
    HasAtSlice(s, i, e, PrefixLen(host, h.secure, h.www), KindText(h.kind));
  }

  lemma TailSlice(p: Pattern, s: string, i: nat, d: nat, e: nat)
    requires i <= d && IsLinkTail(p, s, d, e)
    ensures IsLinkTail(p, s[i..e], d - i, e - i)
  {
    if p == Instagram && !(d < e && AllIn(s, d, e, HandleChar)) {
      AllInSlice(s, i, e, d, e - 1, HandleChar);
      assert s[i..e][e - 1 - i] == s[e - 1];
    } else {
      AllInSlice(s, i, e, d, e, TailClass(p));
    }
  }

  lemma LinkSlice(p: Pattern, host: string, s: string, i: nat, e: nat, h: LinkHead)
    requires IsLinkWith(p, host, s, i, e, h)
    ensures IsLinkWith(p, host, s[i..e], 0, e - i, h)
  {
    var d := i + HeadLen(p, host, h);
    TailSplit(p, s, d, e);
    HeadSlice(p, host, s, i, e, h);
    TailSlice(p, s, i, d, e);
  }

  /** A text the pattern accepts inside `s` is accepted on its own: `re.fullmatch` accepts it. */
  lemma AcceptsSlice(p: Pattern, s: string, i: nat, e: nat)
    requires i <= e <= |s| && Accepts(p, s, i, e)
    ensures Accepts(p, s[i..e], 0, e - i)
  {
    if p == Phone {
      PhoneSlice(s, i, e);
    } else if p == Email {
      EmailSlice(s, i, e);
    } else {
      var h: LinkHead :| IsLinkWith(p, Host(p), s, i, e, h);
      LinkSlice(p, Host(p), s, i, e, h);
    }
  }

  // ---------------------------------------------------------------------------
  // The groups of a link match
  // ---------------------------------------------------------------------------

  /**
   * `g` is a tuple of groups of a link pattern: `(www\.)?` reported as ""
   * or "www.", YouTube's `user` or `channel`, and a non-empty path made of the
   * path class (for Instagram: no `-` and no `/`).
   */
  predicate IsLinkTuple(p: Pattern, g: seq<string>) {
    && IsSocial(p)
    && |g| == GroupCount(p)
    && (g[0] == "" || g[0] == "www.")
    && (p == YouTube ==> g[1] == "user" || g[1] == "channel")
    && 0 < |g[|g| - 1]|
    && AllIn(g[|g| - 1], 0, |g[|g| - 1]|, TailClass(p))
  }

  /** The path a link match captures is non-empty and of the path class. */
  lemma PathShape(p: Pattern, s: string, d: nat, e: nat)
    requires 0 < e <= |s| && IsLinkTail(p, s, d, e)
    ensures d < PathEnd(p, s, e) && AllIn(s, d, PathEnd(p, s, e), TailClass(p))
  {
    if p == Instagram && d < e && AllIn(s, d, e, HandleChar) {
      assert In(s[e - 1], HandleChar);
    }
  }

  /** The groups captured with head `h` form a link tuple when the rest of the match is a path. */
  lemma CapturedShape(p: Pattern, host: string, s: string, m: Match, h: LinkHead)
    requires IsSocial(p) && CapturedWith(p, host, s, m, h)
    requires IsLinkTail(p, s, m.start + HeadLen(p, host, h), m.end)
    ensures IsLinkTuple(p, m.groups)
  {
    var d := m.start + HeadLen(p, host, h);
    var pe := PathEnd(p, s, m.end);
    PathShape(p, s, d, m.end);
    AllInSlice(s, d, pe, d, pe, TailClass(p));
  }

  /** The groups captured with one head, of a link accepted with another, form a link tuple: the heads are the same. */
  lemma LinkShape(p: Pattern, host: string, s: string, m: Match, h1: LinkHead, h2: LinkHead)
    requires IsSocial(p) && 0 < |host| && host[0] != 'w'
    requires IsLinkWith(p, host, s, m.start, m.end, h1) && CapturedWith(p, host, s, m, h2)
    ensures IsLinkTuple(p, m.groups)
  {
    HeadUnique(p, host, s, m.start, h1, h2);
    CapturedShape(p, host, s, m, h2);
  }

  /** The groups of the longest link match have the shape of a link tuple. */
  lemma MatchGroupsShape(p: Pattern, s: string, m: Match)
    requires IsSocial(p) && IsLongestMatch(p, s, m)
    ensures IsLinkTuple(p, m.groups)
  {
    var host := Host(p);
    HostNotW(p);
    assert LinkAccepts(p, host, s, m.start, m.end) && LinkCaptures(p, host, s, m);
    var h1: LinkHead :| IsLinkWith(p, host, s, m.start, m.end, h1);
    var h2: LinkHead :| CapturedWith(p, host, s, m, h2);
    LinkShape(p, host, s, m, h1, h2);
  }

}
