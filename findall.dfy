/**
 * `re.findall(regex, content)` for the six patterns of main.py:59-64.
 *
 * The search loop is the same for every pattern: it asks the compiled
 * pattern for a match at each position from left to right; after a match it
 * resumes where the match ended, otherwise it moves on by one character.
 * ScanWith is that loop over any one-position matcher; Engine(p, s) is the
 * matcher of pattern `p` on the content `s` (Patterns.MatchAt).
 *
 * The declarative counterpart is IsFindall: nothing accepted starts before
 * the first match, which is the longest accepted text at its start, and the
 * rest is found the same way from where it ends. FindallCharacterised proves
 * that the matches found meet it and that nothing else does.
 */
module Findall {
  import opened Wrappers
  import opened CharClass
  import opened Patterns

  // ---------------------------------------------------------------------------
  // The search loop, for any one-position matcher
  // ---------------------------------------------------------------------------

  /** What a compiled pattern finds when asked for a match at a position. */
  type Matcher = nat -> Option<Match>

  /** `at` reports only non-empty matches that start where it is asked and end within `n`. */
  ghost predicate Proper(at: Matcher, n: nat) {
    forall k: nat :: at(k).Some? ==> at(k).value.start == k < at(k).value.end <= n
  }

  /** The search loop from position `i` of a text of length `n`. */
  function ScanWith(at: Matcher, n: nat, i: nat): seq<Match>
    requires i <= n && Proper(at, n)
    decreases n - i
  {
    if i == n then []
    else if at(i).Some? then [at(i).value] + ScanWith(at, n, at(i).value.end)
    else ScanWith(at, n, i + 1)
  }

  /** The matches are non-empty, lie in a text of length `n` from `i` on, and follow one another without overlapping. */
  predicate Ordered(n: nat, i: nat, ms: seq<Match>) {
    && (forall k :: 0 <= k < |ms| ==> ms[k].start < ms[k].end <= n)
    && (|ms| > 0 ==> i <= ms[0].start)
    && (forall k :: 0 < k < |ms| ==> ms[k - 1].end <= ms[k].start)
  }

  /** `at` finds nothing at any position of `[a, b)`. */
  predicate NoneIn(at: Matcher, a: nat, b: nat) {
    forall k: nat :: a <= k < b ==> at(k).None?
  }

  /**
   * `ms` is a run of the search loop from `i`: the matcher finds nothing
   * before the first match, finds that match at its start, and the rest is a
   * run from where it ends; with no match, it finds nothing from `i` to the end.
   */
  ghost predicate IsRunOf(at: Matcher, n: nat, i: nat, ms: seq<Match>)
    decreases |ms|
  {
    i <= n &&
    if ms == [] then NoneIn(at, i, n)
    else
      && i <= ms[0].start
      && NoneIn(at, i, ms[0].start)
      && at(ms[0].start) == Some(ms[0])
      && IsRunOf(at, n, ms[0].end, ms[1..])
  }

  /** The loop's matches are ordered and non-overlapping, and each is what the matcher finds at its start. */
  lemma {:induction false} ScanWithOrdered(at: Matcher, n: nat, i: nat)
    requires i <= n && Proper(at, n)
    ensures Ordered(n, i, ScanWith(at, n, i))
    ensures forall m :: m in ScanWith(at, n, i) ==> at(m.start) == Some(m)
    decreases n - i
  {
    if i < n {
      if at(i).Some? {
        ScanWithOrdered(at, n, at(i).value.end);
      } else {
        ScanWithOrdered(at, n, i + 1);
      }
    }
  }

  /** The loop's result is a run. */
  lemma {:induction false} ScanWithIsRun(at: Matcher, n: nat, i: nat)
    requires i <= n && Proper(at, n)
    ensures IsRunOf(at, n, i, ScanWith(at, n, i))
    decreases n - i
  {
    if i < n {
      if at(i).Some? {
        ScanWithIsRun(at, n, at(i).value.end);
      } else {
        ScanWithIsRun(at, n, i + 1);
      }
    }
  }

  /** The loop passes over a stretch where the matcher finds nothing. */
  lemma {:induction false} ScanWithSkip(at: Matcher, n: nat, i: nat, j: nat)
    requires i <= j <= n && Proper(at, n) && NoneIn(at, i, j)
    ensures ScanWith(at, n, i) == ScanWith(at, n, j)
    decreases j - i
  {
    if i < j {
      ScanWithSkip(at, n, i + 1, j);
    }
  }

  /** A run is the loop's result: the loop has only one. */
  lemma {:induction false} RunUnique(at: Matcher, n: nat, i: nat, ms: seq<Match>)
    requires Proper(at, n) && IsRunOf(at, n, i, ms)
    ensures ms == ScanWith(at, n, i)
    decreases |ms|
  {
    if ms == [] {
      ScanWithSkip(at, n, i, n);
    } else {
      ScanWithSkip(at, n, i, ms[0].start);
      RunUnique(at, n, ms[0].end, ms[1..]);
      assert ms == [ms[0]] + ms[1..];
    }
  }

  // ---------------------------------------------------------------------------
  // The six patterns
  // ---------------------------------------------------------------------------

  /** The matcher of pattern `p` on the content `s`. */
  function Engine(p: Pattern, s: string): (at: Matcher)
    ensures Proper(at, |s|)
  {
    (k: nat) => if k <= |s| then MatchAt(p, s, k) else None
  }

  /** All matches of `p` in `s`, in the order `findall` finds them. */
  function Matches(p: Pattern, s: string): seq<Match> {
    ScanWith(Engine(p, s), |s|, 0)
  }

  /** No accepted text starts anywhere in `s[a..b]`. */
  ghost predicate NoneStartsIn(p: Pattern, s: string, a: nat, b: nat) {
    forall j :: a <= j < b ==> NoneStartsAt(p, s, j)
  }

  /**
   * `ms` is what a leftmost, non-overlapping search for `p` finds in `s` from
   * `i`: nothing accepted starts before the first match, which is the longest
   * accepted text at its start with its groups, and the rest is what the
   * search finds from where it ends; with no match, nothing accepted starts
   * anywhere from `i` on.
   */
  ghost predicate IsFindall(p: Pattern, s: string, i: nat, ms: seq<Match>)
    decreases |ms|
  {
    i <= |s| &&
    if ms == [] then NoneStartsIn(p, s, i, |s|)
    else
      && i <= ms[0].start
      && NoneStartsIn(p, s, i, ms[0].start)
      && IsLongestMatch(p, s, ms[0])
      && IsFindall(p, s, ms[0].end, ms[1..])
  }

  /** Only one end makes the longest accepted text at `i`. */
  lemma LongestUnique(p: Pattern, s: string, i: nat, e1: nat, e2: nat)
    requires IsLongestAt(p, s, i, e1) && IsLongestAt(p, s, i, e2)
    ensures e1 == e2
  {
  }

  /** Two link matches with the same start and end have the same groups. */
  lemma CapturedUnique(p: Pattern, host: string, s: string, m1: Match, m2: Match, h1: LinkHead, h2: LinkHead)
    requires 0 < |host| && host[0] != 'w'
    requires m1.start == m2.start && m1.end == m2.end
    requires CapturedWith(p, host, s, m1, h1) && CapturedWith(p, host, s, m2, h2)
    ensures m1.groups == m2.groups
  {
    HeadUnique(p, host, s, m1.start, h1, h2);
  }

  /** A match with a given start and end has only one set of groups. */
  lemma CapturesUnique(p: Pattern, s: string, m1: Match, m2: Match)
    requires m1.start == m2.start && m1.end == m2.end
    requires Captures(p, s, m1) && Captures(p, s, m2)
    ensures m1.groups == m2.groups
  {
    if IsSocial(p) {
      var host := Host(p);
      HostNotW(p);
      assert LinkCaptures(p, host, s, m1) && LinkCaptures(p, host, s, m2);
      var h1: LinkHead :| CapturedWith(p, host, s, m1, h1);
      var h2: LinkHead :| CapturedWith(p, host, s, m2, h2);
      CapturedUnique(p, host, s, m1, m2, h1, h2);
    }
  }

  /** The engine finds `m` at its start exactly when `m` is the longest accepted text there, with its groups. */
  lemma EngineFindsLongest(p: Pattern, s: string, m: Match)
    ensures Engine(p, s)(m.start) == Some(m) <==> IsLongestMatch(p, s, m)
  {
    if m.start <= |s| {
      MatchAtLongest(p, s, m.start);
      var r := MatchAt(p, s, m.start);
      if IsLongestMatch(p, s, m) {
        LongestUnique(p, s, m.start, m.end, r.value.end);
        CapturesUnique(p, s, m, r.value);
      }
    }
  }

  /** The engine finds nothing exactly where no accepted text starts. */
  lemma EngineFindsNone(p: Pattern, s: string, a: nat, b: nat)
    requires b <= |s|
    ensures NoneIn(Engine(p, s), a, b) <==> NoneStartsIn(p, s, a, b)
  {
    forall j | a <= j < b
      ensures Engine(p, s)(j).None? <==> NoneStartsAt(p, s, j)
    {
      MatchAtLongest(p, s, j);
    }
  }

  /** A leftmost, non-overlapping search result is exactly a run of the engine. */
  lemma {:induction false} FindallIsRun(p: Pattern, s: string, i: nat, ms: seq<Match>)
    ensures IsFindall(p, s, i, ms) <==> IsRunOf(Engine(p, s), |s|, i, ms)
    decreases |ms|
  {
    if i <= |s| {
      if ms == [] {
        EngineFindsNone(p, s, i, |s|);
      } else {
        EngineFindsLongest(p, s, ms[0]);
        if i <= ms[0].start <= |s| {
          EngineFindsNone(p, s, i, ms[0].start);
        }
        FindallIsRun(p, s, ms[0].end, ms[1..]);
      }
    }
  }

  /** The matches of `p` in `s` are exactly the leftmost, non-overlapping, longest ones. */
  lemma FindallCharacterised(p: Pattern, s: string, ms: seq<Match>)
    ensures IsFindall(p, s, 0, Matches(p, s))
    ensures IsFindall(p, s, 0, ms) <==> ms == Matches(p, s)
  {
    var at := Engine(p, s);
    ScanWithIsRun(at, |s|, 0);
    FindallIsRun(p, s, 0, Matches(p, s));
    FindallIsRun(p, s, 0, ms);
    if IsRunOf(at, |s|, 0, ms) {
      RunUnique(at, |s|, 0, ms);
    }
  }

  // ---------------------------------------------------------------------------
  // What `findall` returns
  // ---------------------------------------------------------------------------

  /** Every match is the longest accepted text at its start, with its groups, and the matches do not overlap. */
  lemma MatchesLongest(p: Pattern, s: string)
    ensures Ordered(|s|, 0, Matches(p, s))
    ensures forall m :: m in Matches(p, s) ==> IsLongestMatch(p, s, m)
  {
    ScanWithOrdered(Engine(p, s), |s|, 0);
    forall m | m in Matches(p, s)
      ensures IsLongestMatch(p, s, m)
    {
      EngineFindsLongest(p, s, m);
    }
  }

  /**
   * The text of each match: what `findall` returns for a pattern without
   * groups (Phone, Email), and what each match of a link pattern spells out.
   */
  function MatchedTexts(p: Pattern, s: string): seq<string> {
    var ms := Matches(p, s);
    ScanWithOrdered(Engine(p, s), |s|, 0);
    seq(|ms|, k requires 0 <= k < |ms| => s[ms[k].start..ms[k].end])
  }

  /** The tuple of groups of each match: what `findall` returns for a link pattern. */
  function GroupTuples(p: Pattern, s: string): seq<seq<string>> {
    var ms := Matches(p, s);
    seq(|ms|, k requires 0 <= k < |ms| => ms[k].groups)
  }

  /** `t` is a stretch of `s`. */
  ghost predicate Occurs(t: string, s: string) {
    exists i, j :: 0 <= i <= j <= |s| && s[i..j] == t
  }

  /** The text `t` of a longest match is non-empty, occurs in the content, and the pattern accepts it as a whole. */
  lemma TextOfMatch(p: Pattern, s: string, m: Match, t: string)
    requires IsLongestMatch(p, s, m) && t == s[m.start..m.end]
    ensures 0 < |t| && Accepts(p, t, 0, |t|) && Occurs(t, s)
  {
    AcceptsSlice(p, s, m.start, m.end);
  }

  /** The `k`th match is the longest accepted text at its start, with its groups. */
  lemma KthLongest(p: Pattern, s: string, k: nat)
    requires k < |Matches(p, s)|
    ensures IsLongestMatch(p, s, Matches(p, s)[k])
  {
    MatchesLongest(p, s);
    assert Matches(p, s)[k] in Matches(p, s);
  }

  /** The `k`th text found is the text of the `k`th match. */
  lemma KthText(p: Pattern, s: string, k: nat)
    requires k < |Matches(p, s)|
    ensures |MatchedTexts(p, s)| == |Matches(p, s)|
    ensures var t := MatchedTexts(p, s)[k]; 0 < |t| && Accepts(p, t, 0, |t|) && Occurs(t, s)
  {
    var m := Matches(p, s)[k];
    var t := MatchedTexts(p, s)[k];
    KthLongest(p, s, k);
    assert t == s[m.start..m.end];
    TextOfMatch(p, s, m, t);
  }

  /** Each text found is non-empty, occurs in the content, and the pattern accepts it as a whole. */
  lemma TextsAccepted(p: Pattern, s: string)
    ensures |MatchedTexts(p, s)| == |Matches(p, s)|
    ensures forall t :: t in MatchedTexts(p, s) ==> 0 < |t| && Accepts(p, t, 0, |t|) && Occurs(t, s)
  {
    var ts := MatchedTexts(p, s);
    assert |ts| == |Matches(p, s)|;
    forall k | 0 <= k < |ts|
      ensures 0 < |ts[k]| && Accepts(p, ts[k], 0, |ts[k]|) && Occurs(ts[k], s)
    {
      KthText(p, s, k);
    }
  }

  /** Each tuple a link pattern yields has its groups in the shape the pattern gives them. */
  lemma TuplesShape(p: Pattern, s: string)
    requires IsSocial(p)
    ensures |GroupTuples(p, s)| == |Matches(p, s)|
    ensures forall g :: g in GroupTuples(p, s) ==> IsLinkTuple(p, g)
  {
    var ms := Matches(p, s);
    forall k | 0 <= k < |ms|
      ensures IsLinkTuple(p, ms[k].groups)
    {
      KthLongest(p, s, k);
      MatchGroupsShape(p, s, ms[k]);
    }
  }

  /** The handle of an Instagram tuple is non-empty and holds neither `-` nor `/`. */
  lemma HandleTuple(g: seq<string>)
    requires IsLinkTuple(Instagram, g)
    ensures |g| == 2 && g[1] != "" && '-' !in g[1] && '/' !in g[1]
  {
    assert forall j :: 0 <= j < |g[1]| ==> In(g[1][j], HandleChar);
  }

  /** An Instagram handle never holds a `-` or a `/`, and is never empty. */
  lemma InstagramHandles(s: string)
    ensures forall g :: g in GroupTuples(Instagram, s) ==> |g| == 2 && g[1] != "" && '-' !in g[1] && '/' !in g[1]
  {
    TuplesShape(Instagram, s);
    forall g | g in GroupTuples(Instagram, s)
      ensures |g| == 2 && g[1] != "" && '-' !in g[1] && '/' !in g[1]
    {
      HandleTuple(g);
    }
  }

  /** Each email found holds exactly one `@`, with at least one character on each side. */
  lemma EmailsHaveOneAt(s: string)
    ensures forall t :: t in MatchedTexts(Email, s) ==>
      exists at :: 0 < at < |t| - 1 && t[at] == '@' && forall j :: 0 <= j < |t| && t[j] == '@' ==> j == at
  {
    TextsAccepted(Email, s);
    forall t | t in MatchedTexts(Email, s)
      ensures exists at :: 0 < at < |t| - 1 && t[at] == '@' && forall j :: 0 <= j < |t| && t[j] == '@' ==> j == at
    {
      EmailOneAt(t);
    }
  }

  // ---------------------------------------------------------------------------
  // Single matches
  // ---------------------------------------------------------------------------

  /** When `m` is the longest match and nothing else is accepted before or after it, `findall` finds `m` alone. */
  lemma OneMatch(p: Pattern, s: string, m: Match)
    requires m.end <= |s| && NoneStartsIn(p, s, 0, m.start) && IsLongestMatch(p, s, m) && NoneStartsIn(p, s, m.end, |s|)
    ensures Matches(p, s) == [m]
  {
    assert IsFindall(p, s, m.end, []);
    assert IsFindall(p, s, 0, [m]);
    FindallCharacterised(p, s, [m]);
  }

  /** A phone number cannot start with `0`: in "0123456789" the match starts at the `1`. */
  lemma PhoneSkipsLeadingZero()
    ensures MatchedTexts(Phone, "0123456789") == ["123456789"]
  {
    var s := "0123456789";
    var m := Match(1, 10, []);
    assert IsPhoneDigits(s, 1, 10);
    OneMatch(Phone, s, m);
    assert s[1..10] == "123456789";
  }

  /** `{7,14}` stops after 15 digits; the 2 digits left over are too few for another match. */
  lemma PhoneStopsAfter15Digits()
    ensures MatchedTexts(Phone, "12345678901234567") == ["123456789012345"]
  {
    var s := "12345678901234567";
    var m := Match(0, 15, []);
    assert IsPhoneDigits(s, 0, 15);
    OneMatch(Phone, s, m);
    assert s[0..15] == "123456789012345";
  }

  /** The email pattern needs no `.` after the `@`: "a@b" is an email. */
  lemma EmailNeedsNoDot()
    ensures MatchedTexts(Email, "a@b") == ["a@b"]
  {
    var s := "a@b";
    assert AllIn(s, 0, 1, EmailChar) && AllIn(s, 2, 3, EmailChar);
    assert IsEmail(s, 0, 3);
    OneMatch(Email, s, Match(0, 3, []));
    assert s[0..3] == s;
  }

  /** The link to the Facebook page `name`, as a page of a company website spells it. */
  function FacebookPage(name: string): string {
    "https://" + "www." + "facebook.com/" + name
  }

  lemma FacebookPagePrefix(name: string)
    ensures PrefixIsAt(FacebookPage(name), 0, "facebook.com/", true, true)
  {
    var scheme, www, host := "https://", "www.", "facebook.com/";
    HasAtStart(scheme, www);
    HasAtExtend(scheme + www, host, 0, scheme);
    HasAtExtend(scheme + www + host, name, 0, scheme);
    HasAtConcat(scheme, www, host);
    HasAtExtend(scheme + www + host, name, |scheme|, www);
    HasAtConcat(scheme + www, host, name);
  }

  lemma FacebookPageHead(name: string)
    ensures HeadIsAt(Facebook, Host(Facebook), FacebookPage(name), 0, LinkHead(true, true, Plain))
  {
    FacebookPagePrefix(name);
  }

  lemma FacebookPagePath(name: string)
    requires 0 < |name| && AllIn(name, 0, |name|, PathChar)
    ensures IsLinkTail(Facebook, FacebookPage(name), 25, |FacebookPage(name)|)
    ensures FacebookPage(name)[25..|FacebookPage(name)|] == name
  {
    var prefix := "https://" + "www." + "facebook.com/";
    AllInConcat(prefix, name, PathChar);
    assert (prefix + name)[|prefix|..|prefix + name|] == name;
  }

  /** The link to a page is a Facebook link with head `https://www.` and the page name as its path. */
  lemma FacebookPageLink(name: string)
    requires 0 < |name| && AllIn(name, 0, |name|, PathChar)
    ensures IsLinkWith(Facebook, Host(Facebook), FacebookPage(name), 0, |FacebookPage(name)|, LinkHead(true, true, Plain))
    ensures FacebookPage(name)[25..|FacebookPage(name)|] == name
  {
    FacebookPageHead(name);
    FacebookPagePath(name);
  }

  /** The groups of the link to a page are `www.` and the page name. */
  lemma FacebookPageCaptured(name: string)
    requires 0 < |name| && AllIn(name, 0, |name|, PathChar)
    ensures CapturedWith(Facebook, Host(Facebook), FacebookPage(name), Match(0, |FacebookPage(name)|, ["www.", name]), LinkHead(true, true, Plain))
  {
    var s := FacebookPage(name);
    var h := LinkHead(true, true, Plain);
    FacebookPageHead(name);
    FacebookPagePath(name);
    assert HeadLen(Facebook, Host(Facebook), h) == 25;
    assert PathEnd(Facebook, s, |s|) == |s|;
    assert LinkGroups(Facebook, h, name) == ["www.", name];
  }

  /** The link to a page is accepted as a whole; its groups are `www.` and the page name. */
  lemma FacebookPageMatch(name: string)
    requires 0 < |name| && AllIn(name, 0, |name|, PathChar)
    ensures IsLongestMatch(Facebook, FacebookPage(name), Match(0, |FacebookPage(name)|, ["www.", name]))
  {
    FacebookPageLink(name);
    FacebookPageCaptured(name);
  }

  /**
   * A Facebook page link: its one match spells the whole link, while its
   * tuple of groups is only `www.` and the page name.
   */
  lemma FacebookPageFound(name: string)
    requires 0 < |name| && AllIn(name, 0, |name|, PathChar)
    ensures GroupTuples(Facebook, FacebookPage(name)) == [["www.", name]]
    ensures MatchedTexts(Facebook, FacebookPage(name)) == [FacebookPage(name)]
  {
    var s := FacebookPage(name);
    FacebookPageMatch(name);
    OneMatch(Facebook, s, Match(0, |s|, ["www.", name]));
    assert s[0..|s|] == s;
  }

  /** The same for the page `acmepage`. */
  lemma FacebookLinkExample()
    ensures GroupTuples(Facebook, "https://www.facebook.com/acmepage") == [["www.", "acmepage"]]
    ensures MatchedTexts(Facebook, "https://www.facebook.com/acmepage") == ["https://www.facebook.com/acmepage"]
  {
    assert FacebookPage("acmepage") == "https://www.facebook.com/acmepage";
    FacebookPageFound("acmepage");
  }
}
