# Brand resolution, modelled in Dafny

This project models the brand-resolution core of a multi-brand Next.js storefront. It also models the small cart store beside it.

A *brand* is one entry of a fixed registry with an id, names, a domain, a colour scheme and assets. The application decides which brand to show from several signals:

- the request hostname (at the edge and in the browser);
- a `current-brand-id` cookie that the edge writes and the browser reads;
- request headers (during server rendering);
- a `?brand=` query override;
- a module-level "current brand" cell mirrored into `localStorage`.

Each source file is one Dafny module:

| module | source file | form |
|---|---|---|
| `BrandConfig` | src/utils/brand-config.ts | constant registry tables, lemmas about them |
| `BrandUtils` | src/utils/brand-utils.ts | pure lookups and `hexToRgb`; the brand cell as pure transitions (`BrandState`, `InitialState`, `SetCurrent`, `CurrentBrand`) and as class `BrandStore`, whose methods are proved against those transitions |
| `CookieUtils` | src/utils/cookie-utils.ts | the cookie parser and formatter as functions |
| `DomainUtils` | src/utils/domain-utils.ts | hostname and header resolution as functions; `initializeBrandFromDomain` as a method on the store |
| `Middleware` | src/middleware.ts | the edge decision as a function returning a response value |
| `BrandDetector` | src/components/BrandDetector/BrandDetector.tsx | the server hint as a function |
| `BrandProvider` | src/provider/BrandProvider.tsx | class `Provider` (the `currentBrand`/`isLoading` state) and the derivations it shares with the hook |
| `UseBrand` | src/hooks/useBrand.ts | class `BrandHook` (the hook's `currentBrand` copy) |
| `BrandInitializer` | src/components/BrandInitailizer/BrandInitailizer.tsx | one effect run as a method, specified by a pure `EffectRun` |
| `CartStore` | src/store/index.ts | the cart actions as functions on a sequence |

Three helper modules support them:

- `Wrappers`: `Option`, plus `Outcome` for a value or a thrown error.
- `Runtime`: the browser environment. `None` stands for the server. A browser has a hostname, the `?brand=` value and `document.cookie`.
- `JsString`: the JavaScript string operations the code relies on, written out. They are `split`, `trim`, `startsWith`, `indexOf`/`includes`, first-occurrence `replace`, ASCII `toLowerCase`, truthiness and decimal formatting.

Where the written specification of the system and the code disagree, the model follows the code:

- **Query override vs cookie.** The specification's precedence scenario has a `zumar` cookie, `?brand=mybrand` and `connectwise` in storage, and says the client ends on `mybrand`. In the code, the first effect run applies the override. That run then runs domain detection, because the hook's brand copy is still null, and the cookie overwrites the override, so the run ends on `zumar` (`BrandInitializer.CookieBeatsQueryInFirstRun`). The effect runs again once the hook's copy is set, and that second run re-applies the override, so the cell ends on `mybrand` (`BrandInitializer.OverrideWinsAfterRerun`).
- **Effect runs.** The specification says client reconciliation runs exactly once. The code's effect re-runs whenever the hook's `currentBrand` changes.
- **Host headers.** The specification says the first host header that yields a match is used. The code resolves only the first *truthy* host header among `host`, `x-forwarded-host` and `x-host`. If that header does not resolve, it goes straight to the referer (`DomainUtils.HostHeaderOrder`, `DomainUtils.HeaderPrecedence`).

## Model

| member | source | states |
|---|---|---|
| BrandConfig.DefaultBrandIsFirst | src/utils/brand-config.ts:117 | the default brand is the first registry entry, id `mybrand` |
| BrandConfig.RegistryIds | src/utils/brand-config.ts:3-114 | registry ids are `mybrand`, `zumar`, `connectwise` in that order, pairwise distinct |
| BrandConfig.IdMapIsRegisteredWhitelist | src/utils/brand-config.ts:120-123 | every whitelist key maps to itself and names a registry entry; `connectwise` is registered but not whitelisted |
| BrandConfig.DomainMapTargetsWhitelist | src/utils/brand-config.ts:126-129 | every hostname maps to a whitelisted id; the key order used by the scan lists exactly the table's keys, without repeats |
| BrandConfig.DomainFieldsMapBack | src/utils/brand-config.ts:126-129 | the `domain` fields of `mybrand` and `zumar` map back to their own ids; `connectwise.com` has no entry |
| BrandConfig.RegistryColorsAreHex | src/utils/brand-config.ts:11-99 | every colour of every scheme is `#` and six hex digits |
| BrandConfig.RegistryHasNoFeaturesOrSettings | src/utils/brand-config.ts:3-114 | no registry entry defines `features` or `settings` |
| BrandConfig.TableKeysAreNotPrototypeNames | src/utils/brand-config.ts:120-129 | no table key is a name inherited from `Object.prototype` |
| BrandUtils.HexToRgb | src/utils/brand-utils.ts:10-19 | input outside the pattern gives `0, 0, 0`; for matching input there are three bytes whose lower-case hex pairs spell the captured digits, and the result is their decimal text |
| BrandUtils.ByteAt | src/utils/brand-utils.ts:13-15 | each parsed component is below 256 |
| BrandUtils.HexToRgbRoundTrip | src/utils/brand-utils.ts:10-19 | any three bytes written as `#rrggbb` decode back to `r, g, b` |
| BrandUtils.HexToRgbHashOptional | src/utils/brand-utils.ts:11 | the leading `#` is optional: with or without it the result is the same |
| BrandUtils.HexToRgbExample | src/utils/brand-utils.ts:10-16 | `#1e293b` gives `30, 41, 59` |
| BrandUtils.HexToRgbUpperExample | src/utils/brand-utils.ts:11-16 | `1E293B`, upper case and without `#`, gives the same `30, 41, 59` |
| BrandUtils.HexToRgbFallbackExamples | src/utils/brand-utils.ts:11-18 | shorthand, a non-hex digit and an extra digit all give the fallback |
| BrandUtils.GetBrand | src/utils/brand-utils.ts:40-42 | a brand exactly for registered ids, the one with that id |
| BrandUtils.GetBrandId | src/utils/brand-utils.ts:47-54 | null iff no entry's name or display name matches case-insensitively; otherwise the first match's id |
| BrandUtils.GetBrandIdExamples | src/utils/brand-utils.ts:47-54 | display names and names match in any case |
| BrandUtils.GetBrandIdUnknown | src/utils/brand-utils.ts:47-54 | an unknown name gives null |
| BrandUtils.GetBrandName | src/utils/brand-utils.ts:59-62 | the display name of the entry with that id; null for unknown ids |
| BrandUtils.GetAllBrands | src/utils/brand-utils.ts:67-69 | the registry in order, starting with the default |
| BrandUtils.GetBrandByDomain | src/utils/brand-utils.ts:74-78 | a brand exactly for table hostnames, the one with the mapped id |
| BrandUtils.GetBrandColors | src/utils/brand-utils.ts:103-106 | the scheme of the entry with that id; null for unknown ids |
| BrandUtils.GetBrandAssets | src/utils/brand-utils.ts:111-114 | the assets of the entry with that id; null for unknown ids |
| BrandUtils.CurrentBrand | src/utils/brand-utils.ts:83-86 | an unset cell reads as the default brand; a set cell reads as the entry with that id, or null |
| BrandUtils.InitialStateValid | src/utils/brand-utils.ts:22-34 | load time leaves the cell unset on the server; in a browser it adopts a stored selectable id or else the default id; storage is untouched |
| BrandUtils.SetCurrentFilters | src/utils/brand-utils.ts:91-98 | only whitelisted ids are stored, and mirrored to storage only in a browser; anything else changes nothing; the cell invariant is kept |
| BrandUtils.SetCurrentIgnoresUnselectable | src/utils/brand-utils.ts:91-98 | `connectwise` and `not-a-real-brand` leave the state unchanged |
| BrandUtils.SetCurrentIdempotent | src/utils/brand-utils.ts:91-98 | setting an id twice equals setting it once |
| BrandUtils.CurrentBrandNeverNull | src/utils/brand-utils.ts:83-86 | under the cell invariant the current brand is never null and has the stored id |
| BrandUtils.SetThenRead | src/utils/brand-utils.ts:83-98 | from any state, reading after a whitelisted write gives that id's registry entry, and after an ignored write gives what was read before, which after a fresh load is the default brand |
| BrandUtils.DomainIdsAreRegistered | src/utils/brand-config.ts:120-123 | whitelisted ids are registered and non-empty |
| BrandUtils.PrototypeNamePassesWhitelist | src/utils/brand-utils.ts:92 | as written, `constructor` passes the truthiness test and is stored, and the current brand then reads as null |
| BrandUtils.AsWrittenAgreesOffPrototype | src/utils/brand-utils.ts:91-98 | off the inherited names, the as-written write and the modelled write agree |
| BrandUtils.CurrentBrandColors | src/utils/brand-utils.ts:122-125 | always a registry scheme; under the invariant, the current brand's |
| BrandUtils.CurrentBrandAssets | src/utils/brand-utils.ts:130-133 | always a registry asset bundle; under the invariant, the current brand's |
| BrandUtils.LogoFor | src/utils/brand-utils.ts:138-141 | dark logo exactly for theme `dark`; light for any other or omitted theme |
| BrandUtils.CurrentBrandLogo | src/utils/brand-utils.ts:138-141 | the current assets' dark logo for `dark`, light otherwise |
| BrandUtils.CurrentBrandFavicon | src/utils/brand-utils.ts:146-149 | the current brand's favicon under the invariant, the default brand's while the cell is unset; always a registry favicon |
| BrandUtils.FeatureFlag | src/utils/brand-utils.ts:156 | indexing an absent `features` throws; otherwise true iff the key is present and true |
| BrandUtils.SettingValue | src/utils/brand-utils.ts:166 | indexing an absent `settings` throws; a truthy value is the stored one |
| BrandUtils.HelperHasFeature | src/utils/brand-utils.ts:154-157 | false with no current brand; throws iff the current brand has no `features` |
| BrandUtils.HelperGetSetting | src/utils/brand-utils.ts:162-167 | throws when the current brand has no `settings`; with no default settings the result throws or is truthy |
| BrandUtils.HelpersThrowOnRegistry | src/utils/brand-utils.ts:154-167 | under the invariant, with the registry as it is, both helpers throw |
| BrandUtils.CssVariableNamesDistinct | src/utils/brand-utils.ts:174-194 | sixteen distinct variable names |
| BrandUtils.CssVariables | src/utils/brand-utils.ts:174-194 | sixteen entries: the thirteen colours copied in order, then `hexToRgb` of primary, secondary and accent |
| BrandUtils.GenerateCSSVariables | src/utils/brand-utils.ts:122-125 | the table of the current brand's colours under the invariant, of the default brand's while the cell is unset; always some registry scheme's |
| BrandUtils.RgbVariablesFollowCurrentBrand | src/utils/brand-utils.ts:172-195 | under the invariant the three `-rgb` entries are `hexToRgb` of the current brand's primary, secondary and accent, and its primary matches the pattern |
| BrandUtils.RegistryRgbVariablesDecode | src/utils/brand-utils.ts:191-193 | every registry primary, secondary and accent matches the hex pattern, so no `-rgb` entry is the fallback |
| BrandUtils.DefaultPrimaryRgb | src/utils/brand-utils.ts:191 | with the default brand, `--brand-primary-rgb` is `30, 41, 59` |
| BrandUtils.BrandStore.constructor | src/utils/brand-utils.ts:22-34 | the object's state is the load-time state, and satisfies the invariant |
| BrandUtils.BrandStore.SetCurrentBrand | src/utils/brand-utils.ts:91-98 | the new state is the filtered write of the old one; the invariant is kept |
| BrandUtils.BrandStore.InitializeBrandTheme | src/utils/brand-utils.ts:244-247 | one more theme application, cell unchanged |
| CookieUtils.GetBrandFromServerCookies | src/utils/cookie-utils.ts:6-14 | a value iff the read succeeded with a non-empty cookie; missing, empty or thrown gives null |
| CookieUtils.FindBrandSegment | src/utils/cookie-utils.ts:23-25 | null iff no segment, trimmed, starts with `current-brand-id=`; otherwise such a segment of the input |
| CookieUtils.SegmentValue | src/utils/cookie-utils.ts:27-29 | the text between the first and the second `=` (or the end), trimmed; a value found is non-empty, without `=` and without surrounding white space |
| CookieUtils.ParseBrandCookie | src/utils/cookie-utils.ts:19-32 | null when no segment matches; any value found is cookie-safe |
| CookieUtils.GetBrandFromClientCookies | src/utils/cookie-utils.ts:19-32 | null without a document; otherwise the parse of `document.cookie` |
| CookieUtils.SetBrandCookie | src/utils/cookie-utils.ts:37-43 | writes nothing without a document; otherwise exactly `current-brand-id=<id>; path=/; max-age=2592000; samesite=lax` |
| CookieUtils.MaxAgeText | src/utils/cookie-utils.ts:40-42 | the lifetime is 2592000 seconds and prints as `2592000` |
| CookieUtils.BrandCookieAttributesText | src/utils/cookie-utils.ts:40-42 | the attributes are exactly `; path=/; max-age=2592000; samesite=lax` |
| CookieUtils.ParseFindsBrandPair | src/utils/cookie-utils.ts:19-32 | a cookie-safe id written as the first brand pair, after any non-matching cookies and white space, parses back to that id; later duplicates are ignored |
| CookieUtils.ParseOwnCookieText | src/utils/cookie-utils.ts:19-43 | even the full assignment text `setBrandCookie` writes, attributes included, parses to its id (the browser returns only the pair, `ParseLonePair`) |
| CookieUtils.ParseLonePair | src/utils/cookie-utils.ts:22-29 | a cookie holding only the brand pair parses to its value |
| CookieUtils.LongerNameRejected | src/utils/cookie-utils.ts:23-25 | `current-brand-idx=…` does not match |
| CookieUtils.EmptyValueIsNull | src/utils/cookie-utils.ts:27-29 | a brand pair with an empty or blank value gives null |
| JsString.Trim | src/utils/cookie-utils.ts:24 | the result has no white space at either end |
| JsString.TrimSkipsLeadingWhitespace | src/utils/cookie-utils.ts:24 | leading white space does not change the trimmed text |
| JsString.Split | src/utils/cookie-utils.ts:22 | at least one piece, none containing the separator |
| JsString.SplitJoin | src/utils/cookie-utils.ts:22 | joining the pieces with the separator gives back the input |
| JsString.SplitAround | src/utils/cookie-utils.ts:22 | splitting around one separator splits each side |
| JsString.IndexOfFirst | src/utils/domain-utils.ts:36 | `indexOf` finds the first occurrence, and -1 only when there is none |
| JsString.ToLower | src/utils/brand-utils.ts:50-51 | same length, each character folded |
| JsString.DecimalRoundTrip | src/utils/cookie-utils.ts:40-42 | the printed number reads back as the number |
| DomainUtils.GetCurrentDomain | src/utils/domain-utils.ts:8-17 | empty on the server, the hostname in a browser |
| DomainUtils.FirstLabel | src/utils/domain-utils.ts:29 | the longest dot-free prefix of the input, ending at a dot or the end |
| DomainUtils.ScanKeys | src/utils/domain-utils.ts:35-39 | null iff no key's pattern is contained; otherwise the mapped id of the first key whose pattern is |
| DomainUtils.ScanDomainMap | src/utils/domain-utils.ts:35-41 | any scan hit is a whitelisted id |
| DomainUtils.GetBrandIdFromDomain | src/utils/domain-utils.ts:22-42 | any resolution is non-empty |
| DomainUtils.ExactHostResolves | src/utils/domain-utils.ts:24-26 | a table hostname resolves to exactly its mapped id, which is selectable |
| DomainUtils.SubdomainRule | src/utils/domain-utils.ts:29-32 | otherwise a non-generic first label is returned verbatim: non-empty, dot-free, a prefix of the input |
| DomainUtils.ScanOnlyForGenericLabels | src/utils/domain-utils.ts:29-39 | the scan decides exactly when the first label is empty, `www` or `localhost` |
| DomainUtils.ResolutionIsSelectableOrLabel | src/utils/domain-utils.ts:22-42 | every resolution is a selectable id or the input's own non-generic first label |
| DomainUtils.ScanPatternsAreKeys | src/utils/domain-utils.ts:36 | removing `.com` leaves both table keys unchanged |
| DomainUtils.ScanInOrder | src/utils/domain-utils.ts:35-41 | the scan tests `mybrand.local` before `zumar.local`, else null |
| DomainUtils.ExactExample | src/utils/domain-utils.ts:24-26 | `zumar.local` resolves to `zumar` |
| DomainUtils.SubdomainExample | src/utils/domain-utils.ts:29-32 | `foo.example.com` resolves to the unregistered `foo` |
| DomainUtils.PortExample | src/utils/domain-utils.ts:29-32 | `localhost:3000` comes back whole |
| DomainUtils.WwwResolvesByScan | src/utils/domain-utils.ts:29-39 | every `www.` host is decided by the scan |
| DomainUtils.ScanExample | src/utils/domain-utils.ts:35-39 | `www.zumar.local` resolves to `zumar` |
| DomainUtils.ScanMisses | src/utils/domain-utils.ts:35-41 | a host without room for either key gives no scan hit |
| DomainUtils.EmptyHostUnresolved | src/utils/domain-utils.ts:29-41 | the empty hostname resolves to null |
| DomainUtils.LocalhostUnresolved | src/utils/domain-utils.ts:29-41 | `localhost` resolves to null |
| DomainUtils.UnknownWwwExample | src/utils/domain-utils.ts:29-41 | `www.example.com` resolves to null |
| DomainUtils.DetectBrandFromDomain | src/utils/domain-utils.ts:47-59 | any detection is non-empty |
| DomainUtils.DetectPrecedence | src/utils/domain-utils.ts:47-59 | null on the server; a cookie brand wins; otherwise the hostname's resolution |
| DomainUtils.CookieHidesHostname | src/utils/domain-utils.ts:49-52 | with a brand cookie the hostname makes no difference |
| DomainUtils.HeaderValue | src/utils/domain-utils.ts:64-72 | a `Headers` object's empty value is missing; a record's value is returned as is |
| DomainUtils.Or | src/utils/domain-utils.ts:81-84 | `a \|\| b`: the first if truthy, else the second |
| DomainUtils.GetBrandFromHeaders | src/utils/domain-utils.ts:77-105 | any result is non-empty |
| DomainUtils.HostHeaderOrder | src/utils/domain-utils.ts:81-84 | the host candidate is the first truthy of `host`, `x-forwarded-host`, `x-host` |
| DomainUtils.HeaderPrecedence | src/utils/domain-utils.ts:89-104 | a resolving host wins; otherwise the referer's hostname decides, and an unparsable referer gives null |
| DomainUtils.RefererIgnoredWhenHostResolves | src/utils/domain-utils.ts:89-92 | with a resolving host the URL parser is never consulted |
| DomainUtils.GetBrandForSSR | src/utils/domain-utils.ts:120-129 | any result is non-empty |
| DomainUtils.SSRHeadersDecide | src/utils/domain-utils.ts:123-125 | with headers, exactly the header result, whatever the browser environment |
| DomainUtils.InitializeFromDomain | src/utils/domain-utils.ts:110-115 | no detection leaves the state untouched; the cell invariant is kept |
| DomainUtils.InitializeFromDomainIdempotent | src/utils/domain-utils.ts:110-115 | running it twice equals running it once |
| DomainUtils.UnregisteredSubdomainIgnored | src/utils/domain-utils.ts:110-115 | `foo` detected from `foo.example.com` is filtered out, the cell is unchanged |
| DomainUtils.InitializeBrandFromDomain | src/utils/domain-utils.ts:110-115 | the store's new state is the initialisation of the old one; no theme applied; the invariant is kept |
| Middleware.BrandCookieOptions | src/middleware.ts:16-21 | not HTTP-only, `lax`, 2592000 seconds, secure iff production |
| Middleware.HandleBrandDetection | src/middleware.ts:5-28 | always a pass-through response |
| Middleware.Decide | src/middleware.ts:30-42 | a redirect to `/error` on the request URL iff something was thrown; otherwise the brand decision |
| Middleware.SetsCookieExactlyWhenNew | src/middleware.ts:9-27 | a cookie is set iff the hostname resolves and the request's cookie differs; no resolution gives a bare pass-through |
| Middleware.CookieCarriesResolution | src/middleware.ts:15-21 | the cookie is `current-brand-id`, holds the resolved id, and carries the fixed options |
| Middleware.LifetimesAgree | src/middleware.ts:20 | the edge cookie and the client cookie both live 2592000 seconds |
| Middleware.ReplayIsQuiet | src/middleware.ts:14-15 | replaying a request with the cookie just set sets none |
| Middleware.ExactHostSetsCookie | src/middleware.ts:5-25 | `zumar.local` without a cookie sets `current-brand-id=zumar` |
| Middleware.UnregisteredLabelSetsCookie | src/middleware.ts:6-16 | `foo.example.com` writes the unregistered `foo` into the cookie |
| Middleware.ClientReadsMiddlewareCookie | src/middleware.ts:16-21 | the pair written, stored as the first brand pair, is read back by the client parser when cookie-safe |
| BrandDetector.Detect | src/components/BrandDetector/BrandDetector.tsx:11-34 | any hint is non-empty |
| BrandDetector.CookieBeforeHeaders | src/components/BrandDetector/BrandDetector.tsx:16-21 | a usable server cookie is the hint whatever the headers |
| BrandDetector.HeadersWithoutCookie | src/components/BrandDetector/BrandDetector.tsx:19-21 | without one, the hint is the header resolution |
| BrandDetector.NoHintNoInitialId | src/components/BrandDetector/BrandDetector.tsx:24-33 | no `initialBrandId` iff neither cookie nor headers give a brand |
| BrandDetector.HostHeaderExample | src/components/BrandDetector/BrandDetector.tsx:16-29 | a failed cookie read and `host: zumar.local` give `zumar` |
| BrandProvider.ColorsView | src/provider/BrandProvider.tsx:87-88 | a held copy supplies its own `colorScheme` whatever the cell holds; a null copy gives the helper's colours (the cell's brand, or the default) |
| BrandProvider.AssetsView | src/provider/BrandProvider.tsx:91-92 | a held copy supplies its own `assets` whatever the cell holds; a null copy gives the helper's assets |
| BrandProvider.CopyShadowsCell | src/provider/BrandProvider.tsx:87-92 | for a held copy, colours and assets do not depend on the cell at all |
| BrandProvider.StaleCopyWins | src/provider/BrandProvider.tsx:87-88 | a copy left at `zumar` after the cell moved to `mybrand` still yields zumar's colours, which differ from the cell's |
| BrandProvider.FeatureView | src/provider/BrandProvider.tsx:105-107 | false while the copy is null; throws iff the brand has no `features` |
| BrandProvider.SettingView | src/provider/BrandProvider.tsx:110-114 | defers to the helper while the copy is null; throws without `settings`; a truthy own value wins |
| BrandProvider.MirroredViewsAgree | src/provider/BrandProvider.tsx:86-114 | when the copy mirrors a valid cell, copy and fallbacks give the same values |
| BrandProvider.FeatureAndSettingOnRegistry | src/provider/BrandProvider.tsx:105-114 | with the registry as it is, feature and setting lookups throw once a brand is held |
| BrandProvider.UseBrandContext | src/provider/BrandProvider.tsx:150-156 | throws exactly outside a provider; otherwise the provider's value |
| BrandProvider.Provider.constructor | src/provider/BrandProvider.tsx:50-53 | the copy starts null and loading |
| BrandProvider.Provider.InitializeBrand | src/provider/BrandProvider.tsx:56-76 | a truthy hint goes through the cell's filter, the copy mirrors the cell, loading ends, one theme application |
| BrandProvider.Provider.SetCurrentBrand | src/provider/BrandProvider.tsx:79-84 | filtered write, copy re-read from the cell, one theme application |
| BrandProvider.Provider.ApplyBrandTheme | src/provider/BrandProvider.tsx:117-119 | one theme application, cell unchanged |
| BrandProvider.Provider.BrandColors | src/provider/BrandProvider.tsx:87-88 | the provider copy's scheme when held, otherwise the helper's colours from the cell |
| BrandProvider.Provider.BrandAssets | src/provider/BrandProvider.tsx:91-92 | the provider copy's assets when held, otherwise the helper's assets from the cell |
| BrandProvider.Provider.GetLogo | src/provider/BrandProvider.tsx:95-97 | the dark logo of `brandAssets` only for `"dark"`, the light one otherwise; from the copy when held, else the helper's logo |
| BrandProvider.Provider.GetFavicon | src/provider/BrandProvider.tsx:100-102 | the copy's favicon when held, otherwise the helper's favicon from the cell |
| BrandProvider.Provider.HasFeature | src/provider/BrandProvider.tsx:105-107 | false while the copy is null; with a held copy, throws iff it has no `features` |
| BrandProvider.Provider.GetSetting | src/provider/BrandProvider.tsx:110-114 | the helper's setting while the copy is null; throws when the held copy has no `settings` |
| BrandProvider.Provider.GenerateCSSVariables | src/provider/BrandProvider.tsx:122-124 | the helper's table for the cell's brand (the default's while unset), independent of the copy |
| UseBrand.BrandHook.constructor | src/hooks/useBrand.ts:31-33 | the copy starts null |
| UseBrand.BrandHook.MountEffect | src/hooks/useBrand.ts:36-39 | the copy becomes the cell's brand, never null for a valid cell |
| UseBrand.BrandHook.SetCurrentBrand | src/hooks/useBrand.ts:42-46 | filtered write, then the copy mirrors the cell; no theme applied |
| UseBrand.BrandHook.ApplyBrandTheme | src/hooks/useBrand.ts:90-92 | one theme application, cell unchanged |
| UseBrand.BrandHook.BrandColors | src/hooks/useBrand.ts:49-50 | the hook copy's scheme when held, otherwise the helper's colours from the cell |
| UseBrand.BrandHook.BrandAssets | src/hooks/useBrand.ts:53-54 | the hook copy's assets when held, otherwise the helper's assets from the cell |
| UseBrand.BrandHook.GetLogo | src/hooks/useBrand.ts:57-62 | the dark logo of `brandAssets` only for `"dark"`, the light one otherwise; from the copy when held, else the helper's logo |
| UseBrand.BrandHook.GetFavicon | src/hooks/useBrand.ts:65-67 | the copy's favicon when held, otherwise the helper's favicon from the cell |
| UseBrand.BrandHook.HasFeature | src/hooks/useBrand.ts:70-75 | false while the copy is null; with a held copy, throws iff it has no `features` |
| UseBrand.BrandHook.GetSetting | src/hooks/useBrand.ts:78-87 | the helper's setting while the copy is null; throws when the held copy has no `settings` |
| UseBrand.BrandHook.GenerateCSSVariables | src/hooks/useBrand.ts:95-97 | the helper's table for the cell's brand (the default's while unset), independent of the copy |
| UseBrand.UnmountedFallbacks | src/hooks/useBrand.ts:49-75 | before the mount effect, colours and logo are the helpers' and the feature test is false |
| BrandInitializer.QueryOverride | src/components/BrandInitailizer/BrandInitailizer.tsx:18-24 | no change without a truthy `?brand=` in a browser; the invariant is kept |
| BrandInitializer.RunEffect | src/components/BrandInitailizer/BrandInitailizer.tsx:16-33 | the store's new state is one effect run on the old one; exactly one theme application; the invariant is kept |
| BrandInitializer.EffectKeepsInvariant | src/components/BrandInitailizer/BrandInitailizer.tsx:16-33 | every run keeps the cell invariant |
| BrandInitializer.OverrideIsFiltered | src/components/BrandInitailizer/BrandInitailizer.tsx:18-24 | a selectable override is stored, any other changes nothing |
| BrandInitializer.KnownBrandRunIsIdempotent | src/components/BrandInitailizer/BrandInitailizer.tsx:16-33 | with a known brand a run is the override alone, and repeating it changes nothing |
| BrandInitializer.DetectionOverwritesOverride | src/components/BrandInitailizer/BrandInitailizer.tsx:18-29 | with the brand unknown, a detected selectable brand overwrites the override within the run |
| BrandInitializer.CookieBeatsQueryInFirstRun | src/components/BrandInitailizer/BrandInitailizer.tsx:18-29 | a brand cookie with a selectable id beats any override in the first run |
| BrandInitializer.OverrideWinsAfterRerun | src/components/BrandInitailizer/BrandInitailizer.tsx:16-33 | after the re-run, a selectable override is what the cell holds |
| CartStore.AddProductToCart | src/store/index.ts:7-11 | one longer, earlier items unchanged, the product last |
| CartStore.RemoveProductFromCart | src/store/index.ts:13-15 | no longer than before; every kept item was there and has another id |
| CartStore.ClearCart | src/store/index.ts:17 | the initial, empty cart from any state |
| CartStore.RemoveDistributes | src/store/index.ts:13-15 | removal on a concatenation removes from each part, keeping order |
| CartStore.RemoveSingle | src/store/index.ts:13-15 | a single item is kept iff its id differs |
| CartStore.RemoveCounts | src/store/index.ts:13-15 | items with the id are all gone; every other item keeps its multiplicity |
| CartStore.RemoveAbsent | src/store/index.ts:13-15 | removing an id no item carries changes nothing |
| CartStore.RemoveIdempotent | src/store/index.ts:13-15 | removing twice equals removing once |
| CartStore.RemoveCommutes | src/store/index.ts:13-15 | removing two ids in either order gives the same cart |
| CartStore.RemoveAfterAdd | src/store/index.ts:7-15 | removing after adding removes the new product too iff it has that id |
| CartStore.DuplicatesKept | src/store/index.ts:7-11 | adding a product twice keeps both copies |
| CartStore.NumberAndTextIdsDiffer | src/store/index.ts:15 | strict inequality: a numeric id is not removed by a string id |

## Left out

- DOM writes. `applyBrandColors` and `updateFavicon` (src/utils/brand-utils.ts:208-239) set style properties and a link tag. `initializeBrandTheme` and every `applyBrandTheme` are modelled only as a count of theme applications.
- `console.log` calls.
- Environment inputs become parameters:
  - `new URL(referer).hostname` is the `urlHostname` parameter, where `None` means the constructor throws.
  - `new URL("/error", request.url)` is a redirect value holding the path and the base URL.
  - `process.env.NODE_ENV` is a string parameter.
  - The server cookie jar is a `ServerCookieRead` value.
  - `window.location` and `document.cookie` are the browser environment.
- Middleware.Decide: what may throw inside the `try` is a boolean parameter. The code called there does not throw on any modelled input.
- Header names are matched exactly. The case-insensitivity of a `Headers` object is not modelled; keys are assumed lower-case.
- DomainUtils.GetBrandIdFromDomain, on hostnames such as `constructor` or `toString`: the model tests `DOMAIN_BRAND_MAP` by own keys. The code's `DOMAIN_BRAND_MAP[domain]` (src/utils/domain-utils.ts:24) would return an inherited function for those names.
- BrandUtils.BrandStore.SetCurrentBrand, on an inherited name: the store writes through `SetCurrent`, the corrected own-key filter under Findings, and so does every writer built on it (`DomainUtils.InitializeBrandFromDomain`, the `Provider` and `BrandHook` methods, `BrandInitializer.RunEffect`). The invariant lemmas (`CurrentBrandNeverNull`, `EffectKeepsInvariant`, the non-null copy after `MountEffect`) hold for that filter. The code as written accepts `constructor` and similar names; that write exists only as `SetCurrentAsWritten`, shown by `PrototypeNamePassesWhitelist`.
- BrandUtils.InitialState, on a stored inherited name: it adopts a stored id only if it is an own whitelist key. The code's `BRAND_ID_MAP[storedBrandId]` (src/utils/brand-utils.ts:28) has the same flaw as the one under Findings.
- BrandUtils.GetBrandId: `toLowerCase` folds ASCII letters only.
- JsString.ReplaceFirst: the contract only covers the case with no occurrence, which is the only case the table's keys reach.
- React and zustand runtime behaviour:
  - scheduling, `useCallback` memoisation and the moment effects run: each effect run is an explicit method call;
  - zustand `persist`/`devtools` around the cart.
- One shared `BrandStore` stands for the module state. Two distinct stores are never compared.
- The page's price total (`reduce`) and the product image and price fields are carried as data only.
- The middleware `matcher` regular expression (src/middleware.ts:44-49).
- `getBrand`/`getAllBrands` as re-exported by the provider and the hook: they are the `BrandUtils` functions themselves.

## Findings

| source | as written | input that shows it | evidently intended | confidence | as-written member | corrected member |
|---|---|---|---|---|---|---|
| src/utils/brand-utils.ts:92 | `setCurrentBrand` accepts any id for which `BRAND_ID_MAP[brandId]` is truthy, and that includes names inherited from `Object.prototype` | `setCurrentBrand("constructor")` stores `constructor`, and `getCurrentBrand()` then returns null | only the map's own keys (`mybrand`, `zumar`) are accepted, so the current brand is never null | not executed | BrandUtils.PrototypeNamePassesWhitelist | BrandUtils.SetCurrentFilters |
