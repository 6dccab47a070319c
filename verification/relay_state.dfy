/** `parseRelayState` (api-gateway/src/auth/saml/index.ts:326-344): the guard
    that keeps the post-login redirect on the application's own origin.

    URL resolution (`new URL(relative, base)`) is a parameter `resolve`
    giving the resolved origin and href, or None where the URL constructor
    throws; the accept/reject logic is proved for every resolver.
    SimpleResolve is a small concrete resolver for path-only and
    scheme-relative references, used to show the guard at work. */
module RelayState {
  import opened Wrappers
  import opened JsValues

  datatype Url = Url(origin: string, href: string)

  /** What `parseRelayState` does: return a redirect target or `undefined`
      (with or without logging the rejected value), or throw because the URL
      constructor did. */
  datatype RelayOutcome = Returned(redirect: Option<string>, logged: bool) | Threw

  const LocalBaseUrl: string := "local"

  /** `path.isAbsolute` on POSIX: the path starts with a slash. */
  predicate IsAbsolutePath(s: string) {
    StartsWith(s, "/")
  }

  /** `appBaseUrl.replace(/\/$/, '')`: at most one trailing slash goes. */
  function StripTrailingSlash(s: string): (r: string)
    ensures s != "" && s[|s| - 1] == '/' ==> r + "/" == s
    ensures !(s != "" && s[|s| - 1] == '/') ==> r == s
  {
    if s != "" && s[|s| - 1] == '/' then s[..|s| - 1] else s
  }

  /** `req.body?.RelayState || req.query.RelayState` (an absent body gives
      `undefined`): the body value wins when truthy, otherwise the query
      value is used, and a relay state is given when either is. */
  function ChosenRelayState(body: JsValue, query: JsValue): (r: JsValue)
    ensures Truthy(body) ==> r == body
    ensures !Truthy(body) ==> r == query
    ensures Truthy(r) <==> Truthy(body) || Truthy(query)
  {
    if Truthy(body) then body else query
  }

  /** `parseRelayState` (index.ts:326-344).  A redirect is only ever a
      string starting with "/" and is never logged; the function throws
      exactly when, outside local mode, the URL constructor rejects such a
      string. */
  function ParseRelayState(body: JsValue, query: JsValue, appBaseUrl: string,
                           resolve: (string, string) -> Option<Url>): (r: RelayOutcome)
    ensures var rs := ChosenRelayState(body, query);
            r.Returned? && r.redirect.Some? ==> rs.Str? && IsAbsolutePath(rs.s) && !r.logged
    ensures var rs := ChosenRelayState(body, query);
            r.Threw? <==> rs.Str? && IsAbsolutePath(rs.s) && appBaseUrl != LocalBaseUrl
                          && resolve(rs.s, StripTrailingSlash(appBaseUrl)).None?
  {
    var relayState := ChosenRelayState(body, query);
    if relayState.Str? && IsAbsolutePath(relayState.s) then
      if appBaseUrl == LocalBaseUrl then Returned(Some(relayState.s), false)
      else
        var baseUrl := StripTrailingSlash(appBaseUrl);
        var redirect := resolve(relayState.s, baseUrl);
        if redirect.None? then Threw
        else if redirect.value.origin == baseUrl then Returned(Some(redirect.value.href), false)
        else Returned(None, Truthy(relayState))
    else Returned(None, Truthy(relayState))
  }

  // ---------------------------------------------------------------------
  // The guard, for every resolver
  // ---------------------------------------------------------------------

  /** Outside local mode a redirect is returned if and only if the chosen
      relay state is a string starting with "/" whose resolution against the
      base URL (without its trailing slash) has exactly that URL as origin;
      what is returned is the resolved href. */
  lemma AcceptedIffSameOrigin(body: JsValue, query: JsValue, appBaseUrl: string,
                              resolve: (string, string) -> Option<Url>, target: string)
    requires appBaseUrl != LocalBaseUrl
    ensures var rs := ChosenRelayState(body, query);
            var baseUrl := StripTrailingSlash(appBaseUrl);
            (exists logged :: ParseRelayState(body, query, appBaseUrl, resolve) == Returned(Some(target), logged))
            <==>
            (rs.Str? && IsAbsolutePath(rs.s) && resolve(rs.s, baseUrl) == Some(Url(baseUrl, target)))
  {
    var rs := ChosenRelayState(body, query);
    var baseUrl := StripTrailingSlash(appBaseUrl);
    if rs.Str? && IsAbsolutePath(rs.s) && resolve(rs.s, baseUrl) == Some(Url(baseUrl, target)) {
      assert ParseRelayState(body, query, appBaseUrl, resolve) == Returned(Some(target), false);
    }
  }

  /** In local mode any string starting with "/" is returned unchanged. */
  lemma LocalModeReturnsValueAsGiven(body: JsValue, query: JsValue, resolve: (string, string) -> Option<Url>)
    ensures var rs := ChosenRelayState(body, query);
            rs.Str? && IsAbsolutePath(rs.s) ==> ParseRelayState(body, query, LocalBaseUrl, resolve) == Returned(Some(rs.s), false)
  {
  }

  /** A value that is not a string, or does not start with "/", yields
      `undefined` whatever the mode; it is logged exactly when it is truthy. */
  lemma NonPathIsRejected(body: JsValue, query: JsValue, appBaseUrl: string, resolve: (string, string) -> Option<Url>)
    requires var rs := ChosenRelayState(body, query); !(rs.Str? && IsAbsolutePath(rs.s))
    ensures ParseRelayState(body, query, appBaseUrl, resolve) == Returned(None, Truthy(ChosenRelayState(body, query)))
  {
  }

  /** Every rejection yields `undefined`, and it is logged exactly when a
      relay state was given (a rejected path-like value is always logged). */
  lemma RejectionIsLogged(body: JsValue, query: JsValue, appBaseUrl: string, resolve: (string, string) -> Option<Url>)
    ensures var r := ParseRelayState(body, query, appBaseUrl, resolve);
            var rs := ChosenRelayState(body, query);
            r.Returned? && r.redirect.None? ==>
              r.logged == Truthy(rs) && (rs.Str? && IsAbsolutePath(rs.s) ==> r.logged)
  {
  }

  // ---------------------------------------------------------------------
  // A concrete resolver
  // ---------------------------------------------------------------------

  /** The longest prefix of `s` holding none of the `stops`. */
  function TakeUntil(s: string, stops: set<char>): (r: string)
    ensures |r| <= |s| && r == s[..|r|]
    ensures forall i :: 0 <= i < |r| ==> r[i] !in stops
    ensures |r| < |s| ==> s[|r|] in stops
  {
    if s == [] || s[0] in stops then [] else [s[0]] + TakeUntil(s[1..], stops)
  }

  const AuthorityEnd: set<char> := {'/', '?', '#'}

  /** The scheme and the origin of an absolute base URL
      `scheme "://" authority ...`, or None when `base` has no such shape. */
  function ParseBase(base: string): Option<(string, string)> {
    var scheme := TakeUntil(base, {':', '/', '?', '#'});
    var rest := base[|scheme|..];
    if scheme == [] || !StartsWith(rest, "://") then None
    else
      var authority := TakeUntil(rest[3..], AuthorityEnd);
      if authority == [] then None else Some((scheme, scheme + "://" + authority))
  }

  /** A path-only reference keeps the base origin; a scheme-relative one
      (`//host...`) takes a new authority; an empty authority throws. */
  function SimpleResolve(rel: string, base: string): Option<Url> {
    var parsed := ParseBase(base);
    if parsed.None? then None
    else
      var (scheme, origin) := parsed.value;
      if StartsWith(rel, "//") then
        var authority := TakeUntil(rel[2..], AuthorityEnd);
        var tail := rel[2 + |authority|..];
        if authority == [] then None
        else
          var newOrigin := scheme + "://" + authority;
          Some(Url(newOrigin, newOrigin + (if StartsWith(tail, "/") then tail else "/" + tail)))
      else if StartsWith(rel, "/") then Some(Url(origin, origin + rel))
      else None
  }

  // SimpleResolve agrees with the WHATWG URL parser only on plain inputs:
  // the parser also removes tab, LF and CR anywhere, reads a backslash as '/',
  // skips extra slashes after "//", drops userinfo and default ports from
  // the origin, lower-cases and decodes hosts, resolves dot segments and
  // percent-encodes.  The lemmas about SimpleResolve below are stated for
  // inputs on which none of these steps changes anything.

  /** "http" or "https": a scheme whose URLs need a host and whose origin is
      scheme "://" host. */
  predicate IsWebScheme(scheme: string) {
    scheme == "http" || scheme == "https"
  }

  /** A host the URL parser keeps as written: lower-case letters and dots
      (nothing to lower-case, no digits that could make it an IPv4 address,
      no "xn--" label, no userinfo, port or escape). */
  predicate IsPlainHost(host: string) {
    host != [] && forall i :: 0 <= i < |host| ==> 'a' <= host[i] <= 'z' || host[i] == '.'
  }

  /** A path character the URL parser keeps as written: no whitespace or
      control character, no backslash, no '%', no '.' (so no dot segment),
      no '@' and nothing it percent-encodes. */
  predicate IsPlainPathChar(c: char) {
    'a' <= c <= 'z' || 'A' <= c <= 'Z' || '0' <= c <= '9' || c in {'/', '-', '_', '~', '?', '=', '&'}
  }

  /** A path-only relay state the URL parser keeps as written. */
  predicate IsPlainPath(path: string) {
    IsAbsolutePath(path) && !StartsWith(path, "//") && forall i :: 0 <= i < |path| ==> IsPlainPathChar(path[i])
  }

  /** A plain base URL `scheme "://" host` is its own origin. */
  lemma PlainBase(scheme: string, host: string)
    requires IsWebScheme(scheme) && IsPlainHost(host)
    ensures ParseBase(scheme + "://" + host) == Some((scheme, scheme + "://" + host))
  {
    assert scheme + "://" + host + "" == scheme + "://" + host;
    ParseBaseOf(scheme, host, "");
  }

  /** With a base URL that is a plain origin (a trailing slash allowed), a
      plain path-only relay state is accepted and becomes that origin plus
      the path. */
  lemma SameSitePathAccepted(appBaseUrl: string, scheme: string, host: string, path: string)
    requires IsWebScheme(scheme) && IsPlainHost(host)
    requires StripTrailingSlash(appBaseUrl) == scheme + "://" + host
    requires IsPlainPath(path)
    ensures ParseRelayState(Str(path), Undefined, appBaseUrl, SimpleResolve)
         == Returned(Some(scheme + "://" + host + path), false)
  {
    PlainBase(scheme, host);
  }

  /** With a plain base URL, a scheme-relative relay state naming another
      plain host is rejected and logged. */
  lemma OtherHostRejected(appBaseUrl: string, scheme: string, host: string, rel: string)
    requires IsWebScheme(scheme) && IsPlainHost(host)
    requires StripTrailingSlash(appBaseUrl) == scheme + "://" + host
    requires StartsWith(rel, "//")
    requires var auth := TakeUntil(rel[2..], AuthorityEnd); IsPlainHost(auth) && auth != host
    ensures ParseRelayState(Str(rel), Undefined, appBaseUrl, SimpleResolve) == Returned(None, true)
  {
    PlainBase(scheme, host);
  }

  /** The origin test compares with the whole base URL, so a base URL that
      carries a path (say "https://host/app/") rejects every relay state. */
  lemma BaseWithPathRejectsAll(body: JsValue, query: JsValue, appBaseUrl: string)
    requires appBaseUrl != LocalBaseUrl
    requires ParseBase(StripTrailingSlash(appBaseUrl)).Some?
    requires ParseBase(StripTrailingSlash(appBaseUrl)).value.1 != StripTrailingSlash(appBaseUrl)
    ensures ParseRelayState(body, query, appBaseUrl, SimpleResolve).Returned? ==>
              ParseRelayState(body, query, appBaseUrl, SimpleResolve).redirect.None?
  {
    var rs := ChosenRelayState(body, query);
    var base := StripTrailingSlash(appBaseUrl);
    if rs.Str? && IsAbsolutePath(rs.s) && StartsWith(rs.s, "//") {
      var (scheme, origin) := ParseBase(base).value;
      var authority := TakeUntil(rs.s[2..], AuthorityEnd);
      if authority != [] {
        SchemeRelativeOriginIsNotBase(base, scheme, origin, authority);
      }
    }
  }

  /** A scheme-relative origin equals the base URL only if the base URL is
      itself a bare origin. */
  lemma SchemeRelativeOriginIsNotBase(base: string, scheme: string, origin: string, authority: string)
    requires ParseBase(base) == Some((scheme, origin)) && origin != base
    requires forall i :: 0 <= i < |authority| ==> authority[i] !in AuthorityEnd
    ensures scheme + "://" + authority != base
  {
    var baseScheme := TakeUntil(base, {':', '/', '?', '#'});
    assert baseScheme == scheme;
    var rest := base[|scheme|..];
    var baseAuthority := TakeUntil(rest[3..], AuthorityEnd);
    assert origin == scheme + "://" + baseAuthority;
    assert base == scheme + "://" + rest[3..] by {
      assert base == base[..|scheme|] + rest;
      assert rest == rest[..3] + rest[3..];
    }
    // the base continues after its authority with a character from AuthorityEnd
    assert |baseAuthority| < |rest[3..]|;
    var k := |baseAuthority|;
    assert rest[3..][k] in AuthorityEnd;
  }

  /** The base URL "https://app.example.fi/" is a plain origin once its
      trailing slash is gone. */
  lemma ExampleBase(appBaseUrl: string, host: string)
    requires appBaseUrl == "https://app.example.fi/" && host == "app.example.fi"
    ensures StripTrailingSlash(appBaseUrl) == "https" + "://" + host
    ensures IsPlainHost(host)
  {
    assert appBaseUrl[|appBaseUrl| - 1] == '/';
  }

  /** "/case/123" against the base URL "https://app.example.fi/" resolves on
      the site and is returned as the resolved href, not as given. */
  lemma SameSiteExample(appBaseUrl: string, path: string, href: string)
    requires appBaseUrl == "https://app.example.fi/" && path == "/case/123"
    requires href == "https://app.example.fi/case/123"
    ensures ParseRelayState(Str(path), Undefined, appBaseUrl, SimpleResolve) == Returned(Some(href), false)
  {
    var host := "app.example.fi";
    ExampleBase(appBaseUrl, host);
    ExamplePath(path);
    SameSitePathAccepted(appBaseUrl, "https", host, path);
    ExampleHref(host, path, href);
  }

  /** "/case/123" is a plain path. */
  lemma ExamplePath(path: string)
    requires path == "/case/123"
    ensures IsPlainPath(path)
  {
    assert path[0] == '/' && path[1] == 'c';
    assert forall i :: 0 <= i < |path| ==> IsPlainPathChar(path[i]);
  }

  /** The example's href spelled as origin plus path. */
  lemma ExampleHref(host: string, path: string, href: string)
    requires host == "app.example.fi" && path == "/case/123"
    requires href == "https://app.example.fi/case/123"
    ensures "https" + "://" + host + path == href
  {
  }

  /** In local mode the same path comes back exactly as given. */
  lemma LocalExample(path: string)
    requires path == "/case/123"
    ensures ParseRelayState(Str(path), Undefined, LocalBaseUrl, SimpleResolve) == Returned(Some(path), false)
  {
  }

  /** "//evil.example/" against "https://app.example.fi/" is rejected and
      logged. */
  lemma SchemeRelativeExample(appBaseUrl: string, rel: string)
    requires appBaseUrl == "https://app.example.fi/" && rel == "//evil.example/"
    ensures ParseRelayState(Str(rel), Undefined, appBaseUrl, SimpleResolve) == Returned(None, true)
  {
    var host := "app.example.fi";
    ExampleBase(appBaseUrl, host);
    var other := "evil.example";
    assert rel[..2] == "//";
    assert rel[2..] == other + "/";
    TakeUntilIs(rel[2..], AuthorityEnd, 12);
    assert TakeUntil(rel[2..], AuthorityEnd) == other;
    assert IsPlainHost(other);
    assert other[0] != host[0];
    OtherHostRejected(appBaseUrl, "https", host, rel);
  }

  /** An absolute URL such as "https://evil.example/" does not start with "/"
      and is rejected and logged. */
  lemma AbsoluteUrlExample(appBaseUrl: string, absolute: string)
    requires absolute == "https://evil.example/"
    ensures ParseRelayState(Str(absolute), Undefined, appBaseUrl, SimpleResolve) == Returned(None, true)
  {
    assert absolute[0] == 'h';
  }

  // ---------------------------------------------------------------------
  // A relay state the URL constructor rejects
  // ---------------------------------------------------------------------

  /** "//" starts with "/" but names an empty host, which the URL parser
      rejects for an http or https base: outside local mode
      `parseRelayState` throws instead of rejecting the value. */
  lemma EmptyAuthorityThrows(appBaseUrl: string, scheme: string, host: string, rel: string)
    requires IsWebScheme(scheme) && IsPlainHost(host)
    requires StripTrailingSlash(appBaseUrl) == scheme + "://" + host
    requires rel == "//"
    ensures ParseRelayState(Str(rel), Undefined, appBaseUrl, SimpleResolve) == Threw
  {
    PlainBase(scheme, host);
    assert rel[2..] == [];
  }

  /** `parseRelayState` with a URL the constructor rejects treated as an
      invalid relay state: rejected (undefined) and logged. */
  function ParseRelayStateRejectingInvalid(body: JsValue, query: JsValue, appBaseUrl: string,
                                           resolve: (string, string) -> Option<Url>): (r: RelayOutcome)
    ensures r.Returned?
  {
    var relayState := ChosenRelayState(body, query);
    if relayState.Str? && IsAbsolutePath(relayState.s) then
      if appBaseUrl == LocalBaseUrl then Returned(Some(relayState.s), false)
      else
        var baseUrl := StripTrailingSlash(appBaseUrl);
        var redirect := resolve(relayState.s, baseUrl);
        if redirect.None? then Returned(None, true)
        else if redirect.value.origin == baseUrl then Returned(Some(redirect.value.href), false)
        else Returned(None, Truthy(relayState))
    else Returned(None, Truthy(relayState))
  }

  /** The corrected guard never throws, agrees with `parseRelayState`
      wherever that does not throw, and accepts exactly the same-origin
      targets. */
  lemma RejectingInvalidAgrees(body: JsValue, query: JsValue, appBaseUrl: string,
                               resolve: (string, string) -> Option<Url>, target: string)
    ensures var r := ParseRelayState(body, query, appBaseUrl, resolve);
            var fixed := ParseRelayStateRejectingInvalid(body, query, appBaseUrl, resolve);
            (!r.Threw? ==> fixed == r) && (r.Threw? ==> fixed == Returned(None, true))
    ensures appBaseUrl != LocalBaseUrl ==>
              var rs := ChosenRelayState(body, query);
              var baseUrl := StripTrailingSlash(appBaseUrl);
              (exists logged :: ParseRelayStateRejectingInvalid(body, query, appBaseUrl, resolve) == Returned(Some(target), logged))
              <==>
              (rs.Str? && IsAbsolutePath(rs.s) && resolve(rs.s, baseUrl) == Some(Url(baseUrl, target)))
  {
    if appBaseUrl != LocalBaseUrl {
      AcceptedIffSameOrigin(body, query, appBaseUrl, resolve, target);
      var rs := ChosenRelayState(body, query);
      var baseUrl := StripTrailingSlash(appBaseUrl);
      if rs.Str? && IsAbsolutePath(rs.s) && resolve(rs.s, baseUrl) == Some(Url(baseUrl, target)) {
        assert ParseRelayStateRejectingInvalid(body, query, appBaseUrl, resolve) == Returned(Some(target), false);
      }
    }
  }

  /** A base URL `scheme "://" authority rest`, where `rest` is empty or
      begins with '/', '?' or '#', has origin `scheme "://" authority`. */
  lemma ParseBaseOf(scheme: string, authority: string, rest: string)
    requires scheme != [] && forall i :: 0 <= i < |scheme| ==> scheme[i] !in {':', '/', '?', '#'}
    requires authority != [] && forall i :: 0 <= i < |authority| ==> authority[i] !in AuthorityEnd
    requires rest == [] || rest[0] in AuthorityEnd
    ensures ParseBase(scheme + "://" + authority + rest) == Some((scheme, scheme + "://" + authority))
  {
    var base := scheme + "://" + authority + rest;
    TakeUntilIs(base, {':', '/', '?', '#'}, |scheme|);
    assert base[..|scheme|] == scheme;
    var after := base[|scheme|..];
    assert after == "://" + authority + rest;
    assert after[3..] == authority + rest;
    TakeUntilIs(after[3..], AuthorityEnd, |authority|);
    assert (authority + rest)[..|authority|] == authority;
  }

  /** TakeUntil stops at the first stop character. */
  lemma {:induction false} TakeUntilIs(s: string, stops: set<char>, n: nat)
    requires n <= |s|
    requires forall i :: 0 <= i < n ==> s[i] !in stops
    requires n < |s| ==> s[n] in stops
    ensures TakeUntil(s, stops) == s[..n]
  {
    if n > 0 {
      TakeUntilIs(s[1..], stops, n - 1);
      assert s[..n] == [s[0]] + s[1..][..n - 1];
    }
  }
}
