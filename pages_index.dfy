/** The router's choice of the current page from the location path. */
module PagesIndex {
  import opened Common

  /** The keys of `PAGES`, in declaration order. */
  const PageKeys: seq<string> := ["BingoEvent", "Home", "CreateEvent", "AdminPanel", "UserProfile", "PlayerStats", "TeamPage"]

  /** The position of the last '/', or -1 when there is none. */
  function LastSlash(s: string): (r: int)
    ensures -1 <= r < |s|
    ensures r >= 0 ==> s[r] == '/'
    ensures forall i :: r < i < |s| ==> s[i] != '/'
  {
    if s == [] then -1
    else if s[|s| - 1] == '/' then |s| - 1
    else LastSlash(s[..|s| - 1])
  }

  /** `url.split('/').pop()`: the text after the last '/', the whole text
      when there is none. */
  function LastSegment(s: string): (r: string)
    ensures '/' !in r
    ensures |r| <= |s| && r == s[|s| - |r|..]
    ensures |r| < |s| ==> s[|s| - |r| - 1] == '/'
  {
    s[LastSlash(s) + 1..]
  }

  /** The position of the first `c`, or the length when there is none. */
  function FirstIndex(s: string, c: char): (r: nat)
    ensures r <= |s|
    ensures forall i :: 0 <= i < r ==> s[i] != c
    ensures r < |s| ==> s[r] == c
  {
    if s == [] then 0
    else if s[0] == c then 0
    else 1 + FirstIndex(s[1..], c)
  }

  /** `if (part.includes('?')) part = part.split('?')[0]`. */
  function BeforeQuery(s: string): (r: string)
    ensures '?' !in r && |r| <= |s| && r == s[..|r|]
    ensures |r| < |s| ==> s[|r|] == '?'
  {
    s[..FirstIndex(s, '?')]
  }

  /** `if (url.endsWith('/')) url = url.slice(0, -1)`: one slash only. */
  function StripSlash(url: string): (r: string)
    ensures url != [] && url[|url| - 1] == '/' ==> r == url[..|url| - 1]
    ensures url == [] || url[|url| - 1] != '/' ==> r == url
  {
    if url != [] && url[|url| - 1] == '/' then url[..|url| - 1] else url
  }

  /** The compared segment. */
  function Segment(url: string): string
  {
    BeforeQuery(LastSegment(StripSlash(url)))
  }

  /** `Object.keys(PAGES).find(page => page.toLowerCase() === part.toLowerCase())`. */
  function FindPage(keys: seq<string>, part: string): (r: Option<string>)
    ensures r.Some? ==> r.value in keys && ToLower(r.value) == ToLower(part)
    ensures r.None? <==> forall k :: k in keys ==> ToLower(k) != ToLower(part)
  {
    if keys == [] then None
    else if ToLower(keys[0]) == ToLower(part) then Some(keys[0])
    else FindPage(keys[1..], part)
  }

  /** `_getCurrentPage`: the matching page, or the first one. */
  function CurrentPage(url: string): (r: string)
    ensures r in PageKeys
    ensures FindPage(PageKeys, Segment(url)).None? ==> r == PageKeys[0] && r == "BingoEvent"
    ensures ToLower(r) == ToLower(Segment(url)) || r == "BingoEvent"
  {
    var found := FindPage(PageKeys, Segment(url));
    if found.Some? then found.value else PageKeys[0]
  }

  /** The lowercased first letter of each page key. */
  const Initials: seq<char> := ['b', 'h', 'c', 'a', 'u', 'p', 't']

  /** No two keys agree once lowercased. */
  predicate DistinctIgnoringCase(keys: seq<string>)
  {
    forall i, j :: 0 <= i < j < |keys| ==> ToLower(keys[i]) != ToLower(keys[j])
  }

  /** Strings whose first letters differ once lowercased differ once
      lowercased. */
  lemma FirstLetterDecides(a: string, b: string)
    requires a != [] && b != [] && LowerChar(a[0]) != LowerChar(b[0])
    ensures ToLower(a) != ToLower(b)
  {
    assert ToLower(a)[0] != ToLower(b)[0];
  }

  /** The page keys are told apart by their first letters alone. */
  lemma KeysDistinctIgnoringCase()
    ensures DistinctIgnoringCase(PageKeys)
  {
    forall i | 0 <= i < |PageKeys| ensures PageKeys[i] != [] && LowerChar(PageKeys[i][0]) == Initials[i] {
    }
    forall i, j | 0 <= i < j < |PageKeys| ensures ToLower(PageKeys[i]) != ToLower(PageKeys[j]) {
      FirstLetterDecides(PageKeys[i], PageKeys[j]);
    }
  }

  /** The segment after the last '/', cut at the first '?'. */
  lemma SegmentOf(p: string, s: string, q: string)
    requires '/' !in s && '?' !in s && '/' !in q
    ensures Segment(p + "/" + s + "?" + q) == s
    ensures s != [] ==> Segment(p + "/" + s) == s && Segment(p + "/" + s + "/") == s
  {
    var u := p + "/" + s + "?" + q;
    assert u[|u| - 1] != '/' by {
      if q == [] { assert u[|u| - 1] == '?'; } else { assert u[|u| - 1] == q[|q| - 1]; }
    }
    LastSegmentAfter(p, s + "?" + q);
    assert u == p + "/" + (s + "?" + q);
    BeforeQueryAt(s, q);
    if s != [] {
      LastSegmentAfter(p, s);
      var v := p + "/" + s + "/";
      assert StripSlash(v) == p + "/" + s by {
        assert v[..|v| - 1] == p + "/" + s;
      }
      assert BeforeQuery(s) == s;
    }
  }

  lemma LastSegmentAfter(p: string, t: string)
    requires '/' !in t
    ensures LastSegment(p + "/" + t) == t
  {
    var u := p + "/" + t;
    var r := LastSlash(u);
    assert u[|p|] == '/';
    assert u[|p| + 1..] == t;
  }

  lemma BeforeQueryAt(s: string, q: string)
    requires '?' !in s
    ensures BeforeQuery(s + "?" + q) == s
  {
    var u := s + "?" + q;
    var r := FirstIndex(u, '?');
    assert u[|s|] == '?';
    assert u[..|s|] == s;
  }

  /** A path ending in a page name, in any case, with or without one
      trailing slash or a query, selects that page. */
  lemma PathSelectsPage(p: string, s: string, q: string, k: nat)
    requires k < |PageKeys| && ToLower(s) == ToLower(PageKeys[k])
    requires '/' !in s && '?' !in s && '/' !in q
    ensures CurrentPage(p + "/" + s + "?" + q) == PageKeys[k]
    ensures CurrentPage(p + "/" + s) == PageKeys[k]
    ensures CurrentPage(p + "/" + s + "/") == PageKeys[k]
  {
    assert s != [] by {
      assert |ToLower(PageKeys[k])| == |PageKeys[k]| > 0;
    }
    SegmentOf(p, s, q);
    SegmentSelectsPage(p + "/" + s + "?" + q, k);
    SegmentSelectsPage(p + "/" + s, k);
    SegmentSelectsPage(p + "/" + s + "/", k);
  }

  lemma SegmentSelectsPage(url: string, k: nat)
    requires k < |PageKeys| && ToLower(Segment(url)) == ToLower(PageKeys[k])
    ensures CurrentPage(url) == PageKeys[k]
  {
    KeysDistinctIgnoringCase();
    FindsUniqueKey(PageKeys, Segment(url), k);
  }

  /** Among keys distinct once lowercased, the search finds the one key
      that matches. */
  lemma {:induction false} FindsUniqueKey(keys: seq<string>, s: string, k: nat)
    requires DistinctIgnoringCase(keys) && k < |keys| && ToLower(s) == ToLower(keys[k])
    ensures FindPage(keys, s) == Some(keys[k])
  {
    if k > 0 {
      assert ToLower(keys[0]) != ToLower(keys[k]);
      assert DistinctIgnoringCase(keys[1..]) by {
        forall i, j | 0 <= i < j < |keys| - 1 ensures ToLower(keys[1..][i]) != ToLower(keys[1..][j]) {
          assert keys[1..][i] == keys[i + 1] && keys[1..][j] == keys[j + 1];
        }
      }
      FindsUniqueKey(keys[1..], s, k - 1);
    }
  }
}
