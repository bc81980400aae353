/**
 * src/components/BrandDetector/BrandDetector.tsx: on the server, the brand hint handed to the
 * provider is the brand cookie if there is one, otherwise what the request headers resolve to.
 */
module BrandDetector {
  import opened Wrappers
  import opened JsString
  import opened CookieUtils
  import opened DomainUtils

  /** The provider the detector renders: with `initialBrandId` when it found a hint, without otherwise. */
  datatype ProviderProps = ProviderProps(initialBrandId: Option<string>)

  /**
   * `BrandDetector`. `cookieRead` is the server cookie jar's answer, `requestHeaders` the
   * entries of `headers()` (a `Headers` object), and `urlHostname` the referer parser used
   * by the header resolution.
   */
  function Detect(cookieRead: ServerCookieRead, requestHeaders: map<string, string>,
                  urlHostname: string -> Option<string>): (props: ProviderProps)
    ensures props.initialBrandId.Some? ==> props.initialBrandId.value != ""
  {
    var fromCookie := GetBrandFromServerCookies(cookieRead);
    var detected := if Truthy(fromCookie) then fromCookie
      else GetBrandForSSR(Some(Fetch(requestHeaders)), None, urlHostname);
    if Truthy(detected) then ProviderProps(detected) else ProviderProps(None)
  }

  /** A present, non-empty server cookie is the hint, whatever the headers say. */
  lemma CookieBeforeHeaders(cookieRead: ServerCookieRead, requestHeaders: map<string, string>,
                            urlHostname: string -> Option<string>)
    requires GetBrandFromServerCookies(cookieRead).Some?
    ensures Detect(cookieRead, requestHeaders, urlHostname).initialBrandId == GetBrandFromServerCookies(cookieRead)
    ensures Detect(cookieRead, requestHeaders, urlHostname) == Detect(cookieRead, map[], urlHostname)
  {
  }

  /** Without a usable cookie (missing, empty or unreadable), the hint is the header resolution, null included. */
  lemma HeadersWithoutCookie(cookieRead: ServerCookieRead, requestHeaders: map<string, string>,
                             urlHostname: string -> Option<string>)
    requires GetBrandFromServerCookies(cookieRead).None?
    ensures Detect(cookieRead, requestHeaders, urlHostname).initialBrandId ==
      GetBrandFromHeaders(Fetch(requestHeaders), urlHostname)
  {
  }

  /** The provider gets no `initialBrandId` exactly when neither the cookie nor the headers give a brand. */
  lemma NoHintNoInitialId(cookieRead: ServerCookieRead, requestHeaders: map<string, string>,
                          urlHostname: string -> Option<string>)
    ensures Detect(cookieRead, requestHeaders, urlHostname).initialBrandId.None? <==>
      GetBrandFromServerCookies(cookieRead).None? && GetBrandFromHeaders(Fetch(requestHeaders), urlHostname).None?
  {
  }

  /** With the cookie read failing, a `host` of `zumar.local` gives the hint `zumar`. */
  lemma HostHeaderExample(urlHostname: string -> Option<string>)
    ensures Detect(Threw, map["host" := "zumar.local"], urlHostname).initialBrandId == Some("zumar")
  {
    ExactExample();
    assert HostHeader(Fetch(map["host" := "zumar.local"])) == Some("zumar.local");
  }
}
