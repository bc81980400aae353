/**
 * src/utils/domain-utils.ts: resolving a brand id from a hostname, from the browser
 * (cookie first, then hostname), from request headers, and seeding the brand cell from it.
 */
module DomainUtils {
  import opened Wrappers
  import opened JsString
  import opened BrandConfig
  import opened Runtime
  import opened CookieUtils
  import opened BrandUtils

  /** `getCurrentDomain`: `window.location.hostname`, or `""` on the server. */
  function GetCurrentDomain(env: Env): (domain: string)
    ensures env.None? ==> domain == ""
    ensures env.Some? ==> domain == env.value.hostname
  {
    match env
    case None => ""
    case Some(b) => b.hostname
  }

  /** `domain.split(".")[0]`: the text before the first dot, or all of it. */
  function FirstLabel(domain: string): (first: string)
    ensures |first| <= |domain| && first == domain[..|first|]
    ensures '.' !in first
    ensures |first| < |domain| ==> domain[|first|] == '.'
  {
    SplitFirstPiece(domain, '.');
    Split(domain, '.')[0]
  }

  /** The labels the subdomain rule passes over: missing, `www` and `localhost`. */
  predicate IsGenericLabel(first: string) {
    first == "" || first == "www" || first == "localhost"
  }

  /** `brandDomain.replace(".com", "")`: the key with its first `.com` removed. */
  function ScanPattern(key: string): string {
    ReplaceFirst(key, ".com", "")
  }

  /** The `for … of Object.entries(DOMAIN_BRAND_MAP)` loop over the given keys: the first key whose pattern `domain` contains. */
  function ScanKeys(domain: string, keys: seq<string>): (r: Option<string>)
    requires forall k :: k in keys ==> k in DOMAIN_BRAND_MAP
    ensures r.None? <==> forall i :: 0 <= i < |keys| ==> !Includes(domain, ScanPattern(keys[i]))
    ensures r.Some? ==> exists i :: FirstHit(domain, keys, i) && r.value == DOMAIN_BRAND_MAP[keys[i]]
  {
    if keys == [] then None
    else if Includes(domain, ScanPattern(keys[0])) then Some(DOMAIN_BRAND_MAP[keys[0]])
    else
      var r := ScanKeys(domain, keys[1..]);
      assert forall i :: 1 <= i < |keys| ==> keys[i] == keys[1..][i - 1];
      r
  }

  /** `keys[i]` is the first key whose pattern `domain` contains. */
  predicate FirstHit(domain: string, keys: seq<string>, i: int) {
    0 <= i < |keys| && Includes(domain, ScanPattern(keys[i])) &&
    forall j :: 0 <= j < i ==> !Includes(domain, ScanPattern(keys[j]))
  }

  /** The containment scan over `DOMAIN_BRAND_MAP` in insertion order. */
  function ScanDomainMap(domain: string): (r: Option<string>)
    ensures r.Some? ==> r.value in BRAND_ID_MAP
  {
    DomainMapTargetsWhitelist();
    ScanKeys(domain, DOMAIN_BRAND_ORDER)
  }

  /** `getBrandIdFromDomain`: exact hostname, else a non-generic first label, else the containment scan, else null. */
  function GetBrandIdFromDomain(domain: string): (r: Option<string>)
    ensures r.Some? ==> r.value != ""
  {
    if domain in DOMAIN_BRAND_MAP then
      DomainMapTargetsWhitelist();
      DomainIdsAreRegistered();
      Some(DOMAIN_BRAND_MAP[domain])
    else
      var first := FirstLabel(domain);
      if !IsGenericLabel(first) then Some(first)
      else
        DomainIdsAreRegistered();
        ScanDomainMap(domain)
  }

  // ---- the resolver's rules ------------------------------------------------------

  /** Rule 1: an exact key resolves to exactly its mapped id, which is selectable. */
  lemma ExactHostResolves(domain: string)
    requires domain in DOMAIN_BRAND_MAP
    ensures GetBrandIdFromDomain(domain) == Some(DOMAIN_BRAND_MAP[domain])
    ensures IsSelectableId(DOMAIN_BRAND_MAP[domain])
  {
    DomainMapTargetsWhitelist();
    IdMapIsRegisteredWhitelist();
  }

  /**
   * Rule 2: otherwise a non-generic first label comes back verbatim and unvalidated: the
   * longest dot-free prefix of the input, ending at a dot or at the end.
   */
  lemma SubdomainRule(domain: string)
    requires domain !in DOMAIN_BRAND_MAP
    requires !IsGenericLabel(FirstLabel(domain))
    ensures GetBrandIdFromDomain(domain).Some?
    ensures var first := GetBrandIdFromDomain(domain).value;
      first != "" && '.' !in first && first == domain[..|first|] &&
      (|first| == |domain| || domain[|first|] == '.')
  {
  }

  /** Rule 3: the scan is reached only when the first label is missing, `www` or `localhost`, and its hit is selectable. */
  lemma ScanOnlyForGenericLabels(domain: string)
    requires domain !in DOMAIN_BRAND_MAP
    ensures IsGenericLabel(FirstLabel(domain)) ==> GetBrandIdFromDomain(domain) == ScanDomainMap(domain)
    ensures !IsGenericLabel(FirstLabel(domain)) ==> GetBrandIdFromDomain(domain) == Some(FirstLabel(domain))
  {
  }

  /** Every resolution is either a selectable id (rules 1 and 3) or the input's own first label (rule 2). */
  lemma ResolutionIsSelectableOrLabel(domain: string)
    ensures GetBrandIdFromDomain(domain).Some? ==>
      IsSelectableId(GetBrandIdFromDomain(domain).value) ||
      (GetBrandIdFromDomain(domain).value == FirstLabel(domain) && !IsGenericLabel(FirstLabel(domain)))
  {
    DomainMapTargetsWhitelist();
    IdMapIsRegisteredWhitelist();
  }

  /** Neither table key contains `.com`, so the scan tests the keys themselves. */
  lemma ScanPatternsAreKeys()
    ensures forall k :: k in DOMAIN_BRAND_ORDER ==> ScanPattern(k) == k
  {
    forall k | k in DOMAIN_BRAND_ORDER ensures ScanPattern(k) == k {
      NoDotCom(k);
    }
  }

  /** A key in which no dot is followed by `c` does not contain `.com`. */
  lemma NoDotCom(key: string)
    requires forall i :: 0 <= i < |key| - 1 && key[i] == '.' ==> key[i + 1] != 'c'
    ensures !Includes(key, ".com")
  {
    IndexOfFirst(key, ".com");
    forall j | 0 <= j <= |key| ensures !StartsWith(key[j..], ".com") {
      if j + 4 <= |key| {
        assert key[j..][0] == key[j] && key[j..][1] == key[j + 1];
      }
    }
  }

  /** No position where the pattern could start holds its first character. */
  lemma NotIncluded(s: string, p: string)
    requires p != []
    requires forall j :: 0 <= j <= |s| - |p| ==> s[j] != p[0]
    ensures !Includes(s, p)
  {
    IndexOfFirst(s, p);
    forall j | 0 <= j <= |s| ensures !StartsWith(s[j..], p) {
      if |p| <= |s| - j {
        assert s[j..][0] == s[j];
      }
    }
  }

  lemma IncludedAt(s: string, p: string, j: nat)
    requires j <= |s| && StartsWith(s[j..], p)
    ensures Includes(s, p)
  {
    IndexOfFirst(s, p);
  }

  /** An exact key resolves through the table. */
  lemma ExactExample()
    ensures GetBrandIdFromDomain("zumar.local") == Some("zumar")
  {
    ExactHostResolves("zumar.local");
  }

  /** The label of `a.b` is `a` when `a` has no dot. */
  lemma LabelBeforeDot(a: string, b: string)
    requires '.' !in a
    ensures FirstLabel(a + ['.'] + b) == a
  {
    SplitAround(a, '.', b);
    SplitWithoutSeparator(a, '.');
  }

  /** The scan in closed form: `mybrand.local` is tested before `zumar.local`. */
  lemma ScanInOrder(domain: string)
    ensures ScanDomainMap(domain) ==
      if Includes(domain, "mybrand.local") then Some("mybrand")
      else if Includes(domain, "zumar.local") then Some("zumar")
      else None
  {
    ScanPatternsAreKeys();
    ScanTwoKeys(domain, "mybrand.local", "zumar.local");
  }

  lemma ScanTwoKeys(domain: string, k1: string, k2: string)
    requires k1 in DOMAIN_BRAND_MAP && k2 in DOMAIN_BRAND_MAP
    ensures ScanKeys(domain, [k1, k2]) ==
      if Includes(domain, ScanPattern(k1)) then Some(DOMAIN_BRAND_MAP[k1])
      else if Includes(domain, ScanPattern(k2)) then Some(DOMAIN_BRAND_MAP[k2])
      else None
  {
    assert [k1, k2][1..] == [k2];
    assert [k2][1..] == [];
  }

  lemma FooLabel()
    ensures FirstLabel("foo.example.com") == "foo"
  {
    LabelBeforeDot("foo", "example.com");
  }

  /** An unregistered subdomain comes back as its first label. */
  lemma SubdomainExample()
    ensures GetBrandIdFromDomain("foo.example.com") == Some("foo")
  {
    FooLabel();
    SubdomainRule("foo.example.com");
  }

  /** The port is not stripped, so `localhost:3000` is not the generic `localhost` label. */
  lemma PortExample()
    ensures GetBrandIdFromDomain("localhost:3000") == Some("localhost:3000")
  {
    SplitWithoutSeparator("localhost:3000", '.');
  }

  lemma WwwLabel(rest: string)
    ensures FirstLabel("www." + rest) == "www"
  {
    LabelBeforeDot("www", rest);
    assert "www" + ['.'] + rest == "www." + rest;
  }

  /** The scan finds `zumar.local` inside `www.zumar.local`, after missing `mybrand.local`. */
  lemma ScanFindsZumar(d: string)
    requires d == "www.zumar.local"
    ensures ScanDomainMap(d) == Some("zumar")
  {
    ScanInOrder(d);
    NotIncluded(d, "mybrand.local");
    IncludedAt(d, "zumar.local", 4);
  }

  /** No key starts with `w`, so every `www.` host is resolved by the scan alone. */
  lemma WwwResolvesByScan(rest: string)
    ensures GetBrandIdFromDomain("www." + rest) == ScanDomainMap("www." + rest)
  {
    assert ("www." + rest)[0] == 'w';
    WwwLabel(rest);
    ScanOnlyForGenericLabels("www." + rest);
  }

  /** `www.` in front of a known hostname is found by the scan. */
  lemma ScanExample(rest: string)
    requires rest == "zumar.local"
    ensures GetBrandIdFromDomain("www." + rest) == Some("zumar")
  {
    WwwResolvesByScan(rest);
    ScanFindsZumar("www." + rest);
  }

  /** The scan finds nothing in a host where neither key's first letter appears early enough for the key to fit. */
  lemma ScanMisses(d: string)
    requires forall j :: 0 <= j <= |d| - |"mybrand.local"| ==> d[j] != 'm'
    requires forall j :: 0 <= j <= |d| - |"zumar.local"| ==> d[j] != 'z'
    ensures ScanDomainMap(d) == None
  {
    ScanInOrder(d);
    NotIncluded(d, "mybrand.local");
    NotIncluded(d, "zumar.local");
  }

  /** No hostname resolves to null. */
  lemma EmptyHostUnresolved()
    ensures GetBrandIdFromDomain("") == None
  {
    SplitWithoutSeparator("", '.');
    ScanOnlyForGenericLabels("");
    ScanMisses("");
  }

  /** Bare `localhost` is a generic label and resolves to null. */
  lemma LocalhostUnresolved()
    ensures GetBrandIdFromDomain("localhost") == None
  {
    SplitWithoutSeparator("localhost", '.');
    ScanOnlyForGenericLabels("localhost");
    ScanMisses("localhost");
  }

  /** An unknown `www.` host resolves to null. */
  lemma UnknownWwwExample(rest: string)
    requires rest == "example.com"
    ensures GetBrandIdFromDomain("www." + rest) == None
  {
    WwwResolvesByScan(rest);
    ScanMisses("www." + rest);
  }

  // ---- detection in the browser --------------------------------------------------

  /** `detectBrandFromDomain`: the brand cookie if there is one, else the hostname's resolution; null on the server. */
  function DetectBrandFromDomain(env: Env): (r: Option<string>)
    ensures r.Some? ==> r.value != ""
  {
    var cookieBrand := GetBrandFromClientCookies(env);
    if cookieBrand.Some? && cookieBrand.value != "" then cookieBrand
    else
      var domain := GetCurrentDomain(env);
      if domain == "" then None else GetBrandIdFromDomain(domain)
  }

  /** The cookie is consulted before the hostname, and without a document nothing is detected. */
  lemma DetectPrecedence(env: Env)
    ensures env.None? ==> DetectBrandFromDomain(env) == None
    ensures env.Some? && ParseBrandCookie(env.value.cookie).Some? ==>
      DetectBrandFromDomain(env) == ParseBrandCookie(env.value.cookie)
    ensures env.Some? && ParseBrandCookie(env.value.cookie).None? ==>
      DetectBrandFromDomain(env) == (if env.value.hostname == "" then None else GetBrandIdFromDomain(env.value.hostname))
  {
  }

  /** Two pages that differ only in their hostname detect the same brand when both carry a brand cookie. */
  lemma CookieHidesHostname(b1: Browser, b2: Browser)
    requires b1.cookie == b2.cookie && ParseBrandCookie(b1.cookie).Some?
    ensures DetectBrandFromDomain(Some(b1)) == DetectBrandFromDomain(Some(b2))
  {
  }

  // ---- request headers -------------------------------------------------------------

  /**
   * The two header shapes `getHeaderValue` accepts: a plain record, indexed as is, and a
   * fetch `Headers` object, whose `get` yields null for a missing name (the names are
   * kept in lower case, as `Headers` stores them).
   */
  datatype Headers = Record(fields: map<string, string>) | Fetch(entries: map<string, string>)

  function Fields(headers: Headers): map<string, string> {
    match headers
    case Record(fields) => fields
    case Fetch(entries) => entries
  }

  /** `getHeaderValue`: a `Headers` object's empty value becomes `undefined` (`|| undefined`); a record's value is returned as is. */
  function HeaderValue(headers: Headers, key: string): (v: Option<string>)
    ensures v.Some? ==> key in Fields(headers) && v.value == Fields(headers)[key]
    ensures headers.Record? ==> (v.Some? <==> key in Fields(headers))
    ensures headers.Fetch? ==> (v.Some? <==> key in Fields(headers) && Fields(headers)[key] != "")
  {
    match headers
    case Fetch(entries) => if key in entries && entries[key] != "" then Some(entries[key]) else None
    case Record(fields) => if key in fields then Some(fields[key]) else None
  }

  /** `a || b` over optional strings. */
  function Or(a: Option<string>, b: Option<string>): (r: Option<string>)
    ensures Truthy(a) ==> r == a
    ensures !Truthy(a) ==> r == b
  {
    if Truthy(a) then a else b
  }

  /** The host candidate: the first truthy of `host`, `x-forwarded-host`, `x-host`. */
  function HostHeader(headers: Headers): Option<string> {
    Or(Or(HeaderValue(headers, "host"), HeaderValue(headers, "x-forwarded-host")), HeaderValue(headers, "x-host"))
  }

  /** The referer candidate: the first truthy of `referer`, `x-forwarded-referer`. */
  function RefererHeader(headers: Headers): Option<string> {
    Or(HeaderValue(headers, "referer"), HeaderValue(headers, "x-forwarded-referer"))
  }

  /**
   * `getBrandFromHeaders`. `urlHostname` stands for `new URL(referer).hostname`, `None`
   * where the constructor throws (the error is caught and the result is null).
   */
  function GetBrandFromHeaders(headers: Headers, urlHostname: string -> Option<string>): (r: Option<string>)
    ensures r.Some? ==> r.value != ""
  {
    var host := HostHeader(headers);
    var fromHost := if Truthy(host) then GetBrandIdFromDomain(host.value) else None;
    if fromHost.Some? then fromHost
    else
      var referer := RefererHeader(headers);
      if !Truthy(referer) then None
      else
        match urlHostname(referer.value)
        case None => None
        case Some(hostname) => GetBrandIdFromDomain(hostname)
  }

  /** The host candidate is the first truthy header of the three, in that order. */
  lemma HostHeaderOrder(headers: Headers)
    ensures Truthy(HeaderValue(headers, "host")) ==> HostHeader(headers) == HeaderValue(headers, "host")
    ensures !Truthy(HeaderValue(headers, "host")) && Truthy(HeaderValue(headers, "x-forwarded-host")) ==>
      HostHeader(headers) == HeaderValue(headers, "x-forwarded-host")
    ensures !Truthy(HeaderValue(headers, "host")) && !Truthy(HeaderValue(headers, "x-forwarded-host")) ==>
      HostHeader(headers) == HeaderValue(headers, "x-host")
  {
  }

  /**
   * A resolving host header wins and the referer is never parsed; otherwise the result is
   * the referer's, and an unparsable referer gives null rather than an error.
   */
  lemma HeaderPrecedence(headers: Headers, urlHostname: string -> Option<string>)
    ensures var host := HostHeader(headers);
      Truthy(host) && GetBrandIdFromDomain(host.value).Some? ==>
        GetBrandFromHeaders(headers, urlHostname) == GetBrandIdFromDomain(host.value)
    ensures var host := HostHeader(headers);
      !(Truthy(host) && GetBrandIdFromDomain(host.value).Some?) ==>
        GetBrandFromHeaders(headers, urlHostname) ==
          (if Truthy(RefererHeader(headers)) && urlHostname(RefererHeader(headers).value).Some?
           then GetBrandIdFromDomain(urlHostname(RefererHeader(headers).value).value) else None)
  {
  }

  /** With a resolving host, any two URL parsers agree: the referer is not consulted. */
  lemma RefererIgnoredWhenHostResolves(headers: Headers, p1: string -> Option<string>, p2: string -> Option<string>)
    requires Truthy(HostHeader(headers)) && GetBrandIdFromDomain(HostHeader(headers).value).Some?
    ensures GetBrandFromHeaders(headers, p1) == GetBrandFromHeaders(headers, p2)
  {
  }

  /** `getBrandForSSR`: with headers, exactly the header result (even null); without, the browser detection. */
  function GetBrandForSSR(headers: Option<Headers>, env: Env, urlHostname: string -> Option<string>): (r: Option<string>)
    ensures r.Some? ==> r.value != ""
  {
    match headers
    case Some(h) => GetBrandFromHeaders(h, urlHostname)
    case None => DetectBrandFromDomain(env)
  }

  /** Present headers decide alone: the browser environment makes no difference. */
  lemma SSRHeadersDecide(h: Headers, env1: Env, env2: Env, urlHostname: string -> Option<string>)
    ensures GetBrandForSSR(Some(h), env1, urlHostname) == GetBrandFromHeaders(h, urlHostname)
    ensures GetBrandForSSR(Some(h), env1, urlHostname) == GetBrandForSSR(Some(h), env2, urlHostname)
  {
  }

  // ---- seeding the brand cell ------------------------------------------------------

  /** `initializeBrandFromDomain` on the cell's state: a detected id is handed to `setCurrentBrand`; no detection, no change. */
  function InitializeFromDomain(s: BrandState, env: Env): (s': BrandState)
    ensures DetectBrandFromDomain(env).None? ==> s' == s
    ensures CellInvariant(s) ==> CellInvariant(s')
  {
    match DetectBrandFromDomain(env)
    case Some(id) =>
      SetCurrentFilters(s, env, id);
      SetCurrent(s, env, id)
    case None => s
  }

  /** Running the domain initialisation twice is the same as once. */
  lemma InitializeFromDomainIdempotent(s: BrandState, env: Env)
    ensures InitializeFromDomain(InitializeFromDomain(s, env), env) == InitializeFromDomain(s, env)
  {
    if DetectBrandFromDomain(env).Some? {
      SetCurrentIdempotent(s, env, DetectBrandFromDomain(env).value);
    }
  }

  /** An unregistered subdomain is detected but filtered out: the cell does not change. */
  lemma UnregisteredSubdomainIgnored(s: BrandState)
    ensures InitializeFromDomain(s, Some(Browser("foo.example.com", None, ""))) == s
  {
    FooDetected();
    SetCurrentFilters(s, Some(Browser("foo.example.com", None, "")), "foo");
  }

  /** With no cookie, `foo.example.com` is detected as `foo`. */
  lemma FooDetected()
    ensures DetectBrandFromDomain(Some(Browser("foo.example.com", None, ""))) == Some("foo")
  {
    assert Split("", ';') == [""];
    SubdomainExample();
  }

  /** `initializeBrandFromDomain` on the brand cell. */
  method InitializeBrandFromDomain(store: BrandStore)
    modifies store
    ensures store.State() == InitializeFromDomain(old(store.State()), store.env)
    ensures store.themeApplications == old(store.themeApplications)
    ensures old(store.Valid()) ==> store.Valid()
  {
    var brandId := DetectBrandFromDomain(store.env);
    if brandId.Some? {
      store.SetCurrentBrand(brandId.value);
    }
  }
}
