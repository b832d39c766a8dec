/** The request path of a feed connection: some clients put the whole URL where the path belongs. */
module FeedPath {
  import opened Prelude
  import opened Wire

  function WithSlash(s: string): string {
    if s != "" && s[0] == '/' then s else "/" + s
  }

  function StripSlashes(s: string): (r: string)
    ensures r <= s && (r != "" ==> r[|r| - 1] != '/')
    ensures s != "" && s[|s| - 1] != '/' ==> r == s
  {
    if s != "" && s[|s| - 1] == '/' then StripSlashes(s[..|s| - 1]) else s
  }

  const WS := "ws://"
  const WSS := "wss://"

  /** What follows the host, or the root when nothing does. */
  function AfterHost(s: string): string {
    var i := Find(s, '/');
    if i < |s| then s[i..] else "/"
  }

  function PathPart(raw: string): string {
    if WS <= raw then AfterHost(raw[|WS|..]) else if WSS <= raw then AfterHost(raw[|WSS|..]) else raw
  }

  function Tidy(raw: string): string {
    var path := StripSlashes(WithSlash(raw[..Find(raw, '?')]));
    if path == "" then "/" else path
  }

  function NormalizeFeedRequestPath(request: Option<string>, configured: string): string {
    if request == None || request.value == "" then WithSlash(configured)
    else Tidy(PathPart(Strip(request.value)))
  }

  function FeedPathMatches(request: Option<string>, configured: string): bool {
    var expected, actual := WithSlash(configured), NormalizeFeedRequestPath(request, configured);
    actual == StripSlashes(expected) || actual == expected
  }

  /** Rooted, with no query and no slash at the end. */
  predicate Tidied(p: string) {
    p != "" && p[0] == '/' && '?' !in p && (p != "/" ==> p[|p| - 1] != '/')
  }

  predicate EndsBlank(p: string) {
    p != "" && Blank(p[|p| - 1])
  }

  lemma TidyIsTidied(raw: string)
    ensures Tidied(Tidy(raw))
  {
    var head := raw[..Find(raw, '?')];
    var path := WithSlash(head);
    assert '?' !in path;
    var t := StripSlashes(path);
    assert forall c | c in t :: c in path;
  }

  lemma TidyFixes(p: string)
    requires Tidied(p)
    ensures Tidy(p) == p
  {
    assert p[..|p|] == p;
    assert p == "/" ==> StripSlashes(p) == "";
  }

  lemma KeepsRooted(p: string)
    requires p != "" && p[0] == '/' && !EndsBlank(p)
    ensures PathPart(Strip(p)) == p
  {
    StripTrimmed(p);
  }

  /** Which rooted paths are left as they are. */
  lemma FixedPoints(p: string, configured: string)
    requires p != "" && p[0] == '/'
    ensures NormalizeFeedRequestPath(Some(p), configured) == p <==> Tidied(p) && !EndsBlank(p)
  {
    TidyIsTidied(PathPart(Strip(p)));
    if EndsBlank(p) {
      assert p == [p[0]] + p[1..];
      StripAfter([p[0]], p[1..]);
      StripRightShortens(p);
      TidyShortens(Strip(p));
    } else {
      KeepsRooted(p);
      if Tidied(p) {
        TidyFixes(p);
      }
    }
  }

  /** The request before its query, without the host of a URL. */
  function Head(request: string): string {
    var raw := PathPart(Strip(request));
    raw[..Find(raw, '?')]
  }

  lemma {:induction false} StripSlashesCons(s: string)
    ensures StripSlashes("/" + s) == if StripSlashes(s) == "" then "" else "/" + StripSlashes(s)
  {
    var t := "/" + s;
    if s != "" && s[|s| - 1] == '/' {
      assert t[..|t| - 1] == "/" + s[..|s| - 1];
      StripSlashesCons(s[..|s| - 1]);
    } else if s == "" {
      assert t[..0] == "";
    }
  }

  lemma TidyEndsBlank(raw: string)
    ensures EndsBlank(Tidy(raw)) <==> EndsBlank(StripSlashes(raw[..Find(raw, '?')]))
  {
    var head := raw[..Find(raw, '?')];
    StripSlashesCons(head);
    if head == "" || head[0] != '/' {
      assert WithSlash(head) == "/" + head;
    }
    EndsBlankCons(StripSlashes(head));
  }

  lemma EndsBlankCons(s: string)
    ensures EndsBlank(if s == "" then "/" else "/" + s) <==> EndsBlank(s)
  {
    if s != "" {
      assert ("/" + s)[|s|] == s[|s| - 1];
    }
  }

  /** The normal form of a request is tidied. Normalizing it again changes nothing exactly when the request's
      part before the query, less its final slashes, does not end in a blank. */
  lemma NormalForm(request: string, configured: string)
    requires request != ""
    ensures var p := NormalizeFeedRequestPath(Some(request), configured);
            && Tidied(p)
            && (NormalizeFeedRequestPath(Some(p), configured) == p <==> !EndsBlank(StripSlashes(Head(request))))
  {
    TidyIsTidied(PathPart(Strip(request)));
    TidyEndsBlank(PathPart(Strip(request)));
    FixedPoints(NormalizeFeedRequestPath(Some(request), configured), configured);
  }

  /** A request without a path normalizes to the configured one, as it stands; that is a fixed point exactly
      when it is tidied and does not end in a blank. */
  lemma MissingRequest(configured: string)
    ensures var p := NormalizeFeedRequestPath(None, configured);
            && p == NormalizeFeedRequestPath(Some(""), configured)
            && p == (if configured != "" && configured[0] == '/' then configured else "/" + configured)
            && (NormalizeFeedRequestPath(Some(p), configured) == p <==> Tidied(p) && !EndsBlank(p))
  {
    FixedPoints(WithSlash(configured), configured);
  }

  lemma Rooted(p: string, rest: string)
    requires p != "" && p[0] == '/'
    ensures PathPart(p + rest) == p + rest
  {
    assert (p + rest)[0] == '/';
  }

  /** A query comes off a tidied path. */
  lemma QueryDropped(p: string, query: string, configured: string)
    requires Tidied(p)
    ensures NormalizeFeedRequestPath(Some(p + "?" + query), configured) == p
  {
    StripAfter(p + "?", query);
    Rooted(p, "?" + StripRight(query));
    assert p + ("?" + StripRight(query)) == p + "?" + StripRight(query);
    QueryCut(p, StripRight(query));
    TidyFixes(p);
  }

  /** So does a final slash. */
  lemma SlashDropped(p: string, configured: string)
    requires Tidied(p) && p != "/"
    ensures NormalizeFeedRequestPath(Some(p + "/"), configured) == p
  {
    var slashed := p + "/";
    StripTrimmed(slashed);
    assert '?' !in slashed && slashed[..|slashed|] == slashed;
    assert slashed[..|slashed| - 1] == p;
    assert StripSlashes(p) == p;
  }

  lemma BlankDropped(path: string, blank: char, configured: string)
    requires Tidied(path) && !EndsBlank(path) && Blank(blank)
    ensures NormalizeFeedRequestPath(Some(path + [blank]), configured) == path
  {
    StripAfter(path, [blank]);
    assert [blank][..0] == "";
    assert path + "" == path;
    TidyFixes(path);
  }

  /** Requests that fail: with a blank before the query, or before a final slash, normalizing leaves the
      blank and normalizing again drops it. */
  lemma NotIdempotent(path: string, blank: char, query: string, configured: string)
    requires Tidied(path) && !EndsBlank(path) && Blank(blank)
    ensures var p := path + [blank];
            && NormalizeFeedRequestPath(Some(p + "?" + query), configured) == p
            && NormalizeFeedRequestPath(Some(p + "/"), configured) == p
            && NormalizeFeedRequestPath(Some(p), configured) == path != p
  {
    var p := path + [blank];
    QueryDropped(p, query, configured);
    SlashDropped(p, configured);
    BlankDropped(path, blank, configured);
  }

  /** In particular `/a`, a tab and a query; and, with no query at all, `/a`, a space and a slash. */
  lemma NotIdempotentAt()
    ensures var once := "/a" + ['\t'];
            && NormalizeFeedRequestPath(Some(once + "?" + "x"), "/a") == once
            && NormalizeFeedRequestPath(Some(once), "/a") == "/a" != once
    ensures var once := "/a" + [' '];
            && NormalizeFeedRequestPath(Some(once + "/"), "/a") == once
            && NormalizeFeedRequestPath(Some(once), "/a") == "/a" != once
  {
    NotIdempotent("/a", '\t', "x", "/a");
    NotIdempotent("/a", ' ', "x", "/a");
  }

  lemma {:induction false} StripRightShortens(s: string)
    ensures |StripRight(s)| <= |s| && (EndsBlank(s) ==> |StripRight(s)| < |s|)
  {
    if EndsBlank(s) {
      StripRightShortens(s[..|s| - 1]);
    }
  }

  lemma {:induction false} StripRightAfter(head: string, tail: string)
    requires head != "" && !EndsBlank(head)
    ensures StripRight(head + tail) == head + StripRight(tail)
    decreases |tail|
  {
    if tail == "" {
      assert head + tail == head;
    } else if EndsBlank(tail) {
      assert (head + tail)[..|head + tail| - 1] == head + tail[..|tail| - 1];
      StripRightAfter(head, tail[..|tail| - 1]);
    }
  }

  /** Stripping a text that begins with one whose ends are not blank strips only what follows that. */
  lemma StripAfter(head: string, tail: string)
    requires head != "" && Trimmed(head)
    ensures Strip(head + tail) == StripRight(head + tail) == head + StripRight(tail)
  {
    StripRightAfter(head, tail);
    assert (head + tail)[0] == head[0];
  }

  /** On a rooted text tidying never lengthens. */
  lemma TidyShortens(q: string)
    requires q != "" && q[0] == '/'
    ensures |Tidy(PathPart(q))| <= |q|
  {
  }

  /** A URL in place of the path normalizes to the path in it, whatever the host and the query. */
  lemma UrlNormalizes(scheme: string, host: string, path: string, query: string, configured: string)
    requires scheme == "ws://" || scheme == "wss://"
    requires '/' !in host && Tidied(path) && !EndsBlank(path)
    ensures NormalizeFeedRequestPath(Some(scheme + (host + path)), configured) == path
    ensures NormalizeFeedRequestPath(Some(scheme + (host + (path + "?" + query))), configured) == path
  {
    TidyFixes(path);
    StripUrl(scheme, host, path, "");
    UrlPath(scheme, host, path);
    assert path + "" == path;

    var rest := path + "?" + StripRight(query);
    assert path + "?" + query == (path + "?") + query;
    StripUrl(scheme, host, path + "?", query);
    UrlPath(scheme, host, rest);
    QueryCut(path, StripRight(query));
  }

  /** A URL without a path asks for the root. */
  lemma HostAlone(scheme: string, host: string, configured: string)
    requires scheme == "ws://" || scheme == "wss://"
    requires '/' !in host && host != "" && !EndsBlank(host)
    ensures NormalizeFeedRequestPath(Some(scheme + host), configured) == "/"
  {
    var url := scheme + host;
    assert url[0] == scheme[0] && url[|url| - 1] == host[|host| - 1];
    StripTrimmed(url);
    SchemePart(scheme, host);
  }

  /** A path that is not rooted is read as if it were. */
  lemma SlashAdded(path: string, configured: string)
    requires path != "" && path[0] != '/' && !Blank(path[0]) && !("ws://" <= path) && !("wss://" <= path)
    ensures NormalizeFeedRequestPath(Some(path), configured) == NormalizeFeedRequestPath(Some("/" + path), configured)
  {
    StripAfter("/", path);
    assert ("/" + path)[0] == '/';
    StripAfter(path[..1], path[1..]);
    assert path[..1] + path[1..] == path;
    StripPrefixStays(path);
    RootedTidy(StripRight(path));
  }

  lemma {:induction false} StripPrefixStays(s: string)
    ensures StripRight(s) <= s && PathPart("/" + StripRight(s)) == "/" + StripRight(s)
    ensures !(WS <= s) && !(WSS <= s) ==> PathPart(StripRight(s)) == StripRight(s)
  {
    var post := StripRightSplits(s);
    assert ("/" + StripRight(s))[0] == '/';
    assert WS <= StripRight(s) ==> WS <= s;
    assert WSS <= StripRight(s) ==> WSS <= s;
  }

  lemma RootedTidy(s: string)
    requires s == "" || s[0] != '/'
    ensures Tidy("/" + s) == Tidy(s)
  {
    var i := Find(s, '?');
    var t := "/" + s;
    assert t[1..] == s;
    assert Find(t, '?') == 1 + i;
    assert t[..1 + i] == "/" + s[..i];
  }

  /** Stripping a URL strips only the end of what follows its path. */
  lemma StripUrl(scheme: string, host: string, path: string, tail: string)
    requires scheme == WS || scheme == WSS
    requires path != "" && !EndsBlank(path)
    ensures Strip(scheme + (host + (path + tail))) == scheme + (host + (path + StripRight(tail)))
  {
    var head := scheme + host + path;
    Regroup(scheme, host, path, tail);
    Regroup(scheme, host, path, StripRight(tail));
    UrlTrimmed(scheme, host, path);
    StripAfter(head, tail);
  }

  lemma Regroup(a: string, b: string, c: string, d: string)
    ensures a + (b + (c + d)) == a + b + c + d
  {
  }

  lemma UrlTrimmed(scheme: string, host: string, path: string)
    requires scheme == WS || scheme == WSS
    requires path != "" && !EndsBlank(path)
    ensures Trimmed(scheme + host + path)
  {
    var url := scheme + host + path;
    assert url[0] == scheme[0];
    assert url[|url| - 1] == path[|path| - 1];
  }

  lemma QueryCut(path: string, query: string)
    requires '?' !in path
    ensures Tidy(path + "?" + query) == Tidy(path)
  {
    var raw := path + "?" + query;
    assert raw[..|path|] == path;
    FindUnique(raw, '?', |path|);
    assert path[..|path|] == path;
  }

  lemma UrlPath(scheme: string, host: string, rest: string)
    requires scheme == WS || scheme == WSS
    requires '/' !in host && rest != "" && rest[0] == '/'
    ensures PathPart(scheme + (host + rest)) == rest
  {
    SchemePart(scheme, host + rest);
    var s := host + rest;
    assert s[..|host|] == host && s[|host|..] == rest;
    FindUnique(s, '/', |host|);
  }

  lemma SchemePart(scheme: string, s: string)
    requires scheme == WS || scheme == WSS
    ensures PathPart(scheme + s) == AfterHost(s)
  {
    assert (scheme + s)[|scheme|..] == s;
    if scheme == WSS {
      WsIsNotWss(s);
    }
  }

  lemma WsIsNotWss(s: string)
    ensures !(WS <= WSS + s)
  {
    assert WS[2] == ':' && (WSS + s)[2] == 's';
  }

  /** A connection is taken exactly when it names no path, or its normal form is the configured path less
      trailing slashes; a configured root matches the root, but a configured query matches nothing. */
  lemma MatchesExactly(request: string, configured: string)
    ensures var expected := WithSlash(configured);
            FeedPathMatches(Some(request), configured) <==>
              || (request == "")
              || (NormalizeFeedRequestPath(Some(request), configured) ==
                  if expected == "/" then "/" else StripSlashes(expected))
    ensures request != "" && '?' in configured ==> !FeedPathMatches(Some(request), configured)
    ensures FeedPathMatches(None, configured)
  {
    if request != "" {
      NormalForm(request, configured);
      TidiedMatches(NormalizeFeedRequestPath(Some(request), configured), WithSlash(configured));
      assert '?' in configured ==> '?' in WithSlash(configured);
    }
  }

  lemma TidiedMatches(actual: string, expected: string)
    requires Tidied(actual) && expected != "" && expected[0] == '/'
    ensures (actual == StripSlashes(expected) || actual == expected) <==>
            actual == if expected == "/" then "/" else StripSlashes(expected)
    ensures '?' in expected ==> actual != expected && actual != StripSlashes(expected)
  {
    if '?' in expected {
      QueryStays(expected);
    }
    assert expected == "/" ==> StripSlashes(expected) == "";
  }

  lemma {:induction false} QueryStays(s: string)
    requires '?' in s
    ensures '?' in StripSlashes(s)
  {
    if s[|s| - 1] == '/' {
      assert s == s[..|s| - 1] + [s[|s| - 1]];
      QueryStays(s[..|s| - 1]);
    }
  }
}
