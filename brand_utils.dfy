/**
 * src/utils/brand-utils.ts: hex colour parsing, registry lookups, the module-global
 * current-brand cell with its `localStorage` mirror, the `brandHelpers` derivations and
 * the CSS-variable table.
 */
module BrandUtils {
  import opened Wrappers
  import opened JsString
  import opened BrandConfig
  import opened Runtime

  // ---- hexToRgb ------------------------------------------------------------------

  function HexDigitValue(c: char): (v: nat)
    requires IsHexDigit(c)
    ensures v < 16
  {
    if '0' <= c <= '9' then c as int - '0' as int
    else if 'a' <= c <= 'f' then c as int - 'a' as int + 10
    else c as int - 'A' as int + 10
  }

  predicate AllHex(s: string) {
    forall i :: 0 <= i < |s| ==> IsHexDigit(s[i])
  }

  /** The text `/^#?([a-f\d]{2})([a-f\d]{2})([a-f\d]{2})$/i` accepts: an optional `#`, then six hex digits. */
  predicate MatchesHexPattern(s: string) {
    (|s| == 7 && s[0] == '#' && AllHex(s[1..])) || (|s| == 6 && AllHex(s))
  }

  /** The six digits the pattern captures. */
  function HexBody(s: string): (d: string)
    requires MatchesHexPattern(s)
    ensures |d| == 6 && AllHex(d)
  {
    if |s| == 7 then s[1..] else s
  }

  /** `parseInt` of the two hex digits at `i` and `i + 1`. */
  function ByteAt(d: string, i: nat): (v: nat)
    requires i + 1 < |d| && IsHexDigit(d[i]) && IsHexDigit(d[i + 1])
    ensures v < 256
  {
    16 * HexDigitValue(d[i]) + HexDigitValue(d[i + 1])
  }

  /** The `"r, g, b"` text `hexToRgb` produces. */
  function RgbText(r: nat, g: nat, b: nat): string {
    NatToString(r) + ", " + NatToString(g) + ", " + NatToString(b)
  }

  const RGB_FALLBACK := "0, 0, 0"

  /** The lower-case hex digit for a nibble. */
  function HexDigitChar(n: nat): (c: char)
    requires n < 16
    ensures IsHexDigit(c)
  {
    if n < 10 then ('0' as int + n) as char else ('a' as int + n - 10) as char
  }

  /** Two lower-case hex digits for a byte. */
  function HexPair(n: nat): (p: string)
    requires n < 256
    ensures |p| == 2 && AllHex(p)
  {
    [HexDigitChar(n / 16), HexDigitChar(n % 16)]
  }

  /**
   * `hexToRgb`: for text the pattern accepts, the decimal components of the three bytes whose
   * lower-case hex digits are the captured six; `"0, 0, 0"` for any other text.
   */
  function HexToRgb(hex: string): (rgb: string)
    ensures !MatchesHexPattern(hex) ==> rgb == RGB_FALLBACK
    ensures MatchesHexPattern(hex) ==> DecodesTo(HexBody(hex), rgb)
  {
    if MatchesHexPattern(hex) then
      var d := HexBody(hex);
      HexBodyIsBytes(d);
      RgbText(ByteAt(d, 0), ByteAt(d, 2), ByteAt(d, 4))
    else RGB_FALLBACK
  }

  /** `rgb` is the text of three bytes whose lower-case hex pairs spell the six digits `d`, pair by pair. */
  predicate DecodesTo(d: string, rgb: string)
    requires |d| == 6
  {
    exists r: nat, g: nat, b: nat :: r < 256 && g < 256 && b < 256 &&
      ToLower(d[0..2]) == HexPair(r) && ToLower(d[2..4]) == HexPair(g) && ToLower(d[4..6]) == HexPair(b) &&
      rgb == RgbText(r, g, b)
  }

  /** A hex digit's value is written back as the digit in lower case. */
  lemma HexDigitLowered(c: char)
    requires IsHexDigit(c)
    ensures HexDigitChar(HexDigitValue(c)) == LowerChar(c)
  {
  }

  /** A nibble's digit reads back as the nibble. */
  lemma HexDigitCharValue(n: nat)
    requires n < 16
    ensures HexDigitValue(HexDigitChar(n)) == n
  {
  }

  /** The two digits at `i`, lowered, are the hex pair of the byte they denote. */
  lemma ByteAtLowered(d: string, i: nat)
    requires i + 1 < |d| && IsHexDigit(d[i]) && IsHexDigit(d[i + 1])
    ensures HexPair(ByteAt(d, i)) == ToLower(d[i..i + 2])
  {
    var t := d[i..i + 2];
    assert ByteAt(d, i) == ByteAt(t, 0);
    PairLowered(t);
  }

  lemma PairLowered(t: string)
    requires |t| == 2 && IsHexDigit(t[0]) && IsHexDigit(t[1])
    ensures HexPair(ByteAt(t, 0)) == ToLower(t)
  {
    var hi, lo := HexDigitValue(t[0]), HexDigitValue(t[1]);
    assert ByteAt(t, 0) == 16 * hi + lo;
    HexDigitLowered(t[0]);
    HexDigitLowered(t[1]);
    NibblesLowered(t, hi, lo);
  }

  /** Two nibbles whose digits are the lowered characters of `t` make the byte written as `t`. */
  lemma NibblesLowered(t: string, hi: nat, lo: nat)
    requires |t| == 2 && hi < 16 && lo < 16
    requires HexDigitChar(hi) == LowerChar(t[0]) && HexDigitChar(lo) == LowerChar(t[1])
    ensures HexPair(16 * hi + lo) == ToLower(t)
  {
    PairOfDigits(hi, lo);
  }

  /** The byte with hex digits `hi`, `lo` is written back as those two digits. */
  lemma PairOfDigits(hi: nat, lo: nat)
    requires hi < 16 && lo < 16
    ensures HexPair(16 * hi + lo) == [HexDigitChar(hi), HexDigitChar(lo)]
  {
    assert (16 * hi + lo) / 16 == hi && (16 * hi + lo) % 16 == lo;
  }

  /** Six captured digits, lowered pair by pair, are the hex pairs of the three bytes `hexToRgb` reads. */
  lemma HexBodyIsBytes(d: string)
    requires |d| == 6 && AllHex(d)
    ensures DecodesTo(d, RgbText(ByteAt(d, 0), ByteAt(d, 2), ByteAt(d, 4)))
  {
    ByteAtLowered(d, 0);
    ByteAtLowered(d, 2);
    ByteAtLowered(d, 4);
  }

  lemma HexPairValue(n: nat)
    requires n < 256
    ensures ByteAt(HexPair(n), 0) == n
  {
    var p := HexPair(n);
    HexDigitCharValue(n / 16);
    HexDigitCharValue(n % 16);
    assert HexDigitValue(p[0]) == n / 16 && HexDigitValue(p[1]) == n % 16;
  }

  /** Round trip: formatting three bytes as `#rrggbb` and converting back gives their decimal text. */
  lemma {:induction false} HexToRgbRoundTrip(r: nat, g: nat, b: nat)
    requires r < 256 && g < 256 && b < 256
    ensures HexToRgb("#" + HexPair(r) + HexPair(g) + HexPair(b)) == RgbText(r, g, b)
  {
    var s := "#" + HexPair(r) + HexPair(g) + HexPair(b);
    var d := s[1..];
    assert d == HexPair(r) + HexPair(g) + HexPair(b);
    assert MatchesHexPattern(s);
    HexPairValue(r);
    HexPairValue(g);
    HexPairValue(b);
    assert d[0..2] == HexPair(r) && d[2..4] == HexPair(g) && d[4..6] == HexPair(b);
    assert ByteAt(d, 0) == ByteAt(HexPair(r), 0);
    assert ByteAt(d, 2) == ByteAt(HexPair(g), 0);
    assert ByteAt(d, 4) == ByteAt(HexPair(b), 0);
  }

  /** The leading `#` is optional: a text that does not itself start with `#` converts the same with or without one. */
  lemma HexToRgbHashOptional(s: string)
    requires s == "" || s[0] != '#'
    ensures HexToRgb("#" + s) == HexToRgb(s)
  {
    var t := "#" + s;
    assert t[1..] == s;
    if MatchesHexPattern(s) {
      assert |s| == 6;
      assert MatchesHexPattern(t) && HexBody(t) == s;
    } else {
      assert !MatchesHexPattern(t) by {
        if |t| == 6 {
          assert !IsHexDigit(t[0]);
        }
      }
    }
  }

  lemma RgbTextExample()
    ensures RgbText(30, 41, 59) == "30, 41, 59"
  {
    assert NatToString(30) == "30" && NatToString(41) == "41" && NatToString(59) == "59";
  }

  /** `"#1e293b"` gives `"30, 41, 59"`. */
  lemma HexToRgbExample()
    ensures HexToRgb("#1e293b") == "30, 41, 59"
  {
    RgbTextExample();
    assert HexBody("#1e293b") == "1e293b";
    assert ByteAt("1e293b", 0) == 30 && ByteAt("1e293b", 2) == 41 && ByteAt("1e293b", 4) == 59;
  }

  /** Upper-case digits without the `#` give the same `"30, 41, 59"`: the pattern ignores case. */
  lemma HexToRgbUpperExample()
    ensures HexToRgb("1E293B") == "30, 41, 59"
  {
    RgbTextExample();
    assert ByteAt("1E293B", 0) == 30 && ByteAt("1E293B", 2) == 41 && ByteAt("1E293B", 4) == 59;
  }

  /** Three-digit shorthand, a non-hex digit and a seventh digit all give the fallback. */
  lemma HexToRgbFallbackExamples()
    ensures HexToRgb("#abc") == RGB_FALLBACK
    ensures HexToRgb("#1e293g") == RGB_FALLBACK
    ensures HexToRgb("#1e293b0") == RGB_FALLBACK
  {
    assert !IsHexDigit("#1e293g"[6]);
  }

  // ---- registry lookups ------------------------------------------------------------

  /** `Array.prototype.findIndex` by id: the first position whose id is `id`, `|bs|` for none. */
  function FindById(bs: seq<Brand>, id: string): (k: nat)
    ensures k <= |bs|
    ensures k < |bs| ==> bs[k].id == id
    ensures forall j :: 0 <= j < k ==> bs[j].id != id
  {
    if bs == [] then 0 else if bs[0].id == id then 0 else 1 + FindById(bs[1..], id)
  }

  /** `getBrand`: the registry entry with that id, `None` for an unknown id. */
  function GetBrand(id: string): (r: Option<Brand>)
    ensures r.Some? <==> id in Ids()
    ensures r.Some? ==> r.value in BRANDS && r.value.id == id
  {
    var k := FindById(BRANDS, id);
    assert id in Ids() ==> k < |BRANDS| by {
      if id in Ids() {
        var i :| 0 <= i < |Ids()| && Ids()[i] == id;
        assert BRANDS[i].id == id;
      }
    }
    if k < |BRANDS| then Some(BRANDS[k]) else None
  }

  /** The case-insensitive test `getBrandId` applies to one entry. */
  predicate NameMatches(b: Brand, brandName: string) {
    ToLower(b.name) == ToLower(brandName) || ToLower(b.displayName) == ToLower(brandName)
  }

  function FindByName(bs: seq<Brand>, brandName: string): (k: nat)
    ensures k <= |bs|
    ensures k < |bs| ==> NameMatches(bs[k], brandName)
    ensures forall j :: 0 <= j < k ==> !NameMatches(bs[j], brandName)
  {
    if bs == [] then 0 else if NameMatches(bs[0], brandName) then 0 else 1 + FindByName(bs[1..], brandName)
  }

  /** `getBrandId`: the id of the first entry whose name or display name matches, ignoring ASCII case. */
  function GetBrandId(brandName: string): (r: Option<string>)
    ensures r.None? <==> forall b :: b in BRANDS ==> !NameMatches(b, brandName)
    ensures r.Some? ==>
      exists k :: (0 <= k < |BRANDS| && BRANDS[k].id == r.value && NameMatches(BRANDS[k], brandName)
                   && forall j :: 0 <= j < k ==> !NameMatches(BRANDS[j], brandName))
  {
    var k := FindByName(BRANDS, brandName);
    if k < |BRANDS| && BRANDS[k].id != "" then Some(BRANDS[k].id) else None
  }

  lemma GetBrandIdExamples()
    ensures GetBrandId("PRACTICE BRAND") == Some("mybrand")
    ensures GetBrandId("Zumar") == Some("zumar")
    ensures GetBrandId("esim go") == Some("zumar")
  {
    assert NameMatches(BRANDS[0], "PRACTICE BRAND");
    assert !NameMatches(BRANDS[0], "Zumar") && NameMatches(BRANDS[1], "Zumar");
    assert ToLower("Practice Brand")[0] != ToLower("esim go")[0];
    assert !NameMatches(BRANDS[0], "esim go") && NameMatches(BRANDS[1], "esim go");
  }

  /** A name that matches no id and no display name has no id. */
  lemma GetBrandIdUnknown()
    ensures GetBrandId("odine") == None
  {
    assert ToLower("odine")[0] == 'o';
    assert ToLower("mybrand")[0] == 'm' && ToLower("Practice Brand")[0] == 'p';
    assert ToLower("zumar")[0] == 'z' && ToLower("eSIM Go")[0] == 'e';
    assert ToLower("connectwise")[0] == 'c' && ToLower("ConnectWise")[0] == 'c';
  }

  /** `getBrandName`: the display name of the entry with that id. */
  function GetBrandName(id: string): (r: Option<string>)
    ensures r.Some? <==> id in Ids()
    ensures r.Some? ==> exists b :: b in BRANDS && b.id == id && r.value == b.displayName
  {
    match GetBrand(id)
    case Some(b) => if b.displayName != "" then Some(b.displayName) else None
    case None => None
  }

  /** `getAllBrands`: a copy of the registry, in order. */
  function GetAllBrands(): (all: seq<Brand>)
    ensures all == BRANDS && all[0] == DEFAULT_BRAND
  {
    BRANDS[..]
  }

  /** `getBrandByDomain`: the entry an exact hostname maps to; `None` for any other text. */
  function GetBrandByDomain(domain: string): (r: Option<Brand>)
    ensures r.Some? <==> domain in DOMAIN_BRAND_MAP
    ensures r.Some? ==> r.value in BRANDS && r.value.id == DOMAIN_BRAND_MAP[domain]
  {
    if domain in DOMAIN_BRAND_MAP && DOMAIN_BRAND_MAP[domain] != "" then
      assert DOMAIN_BRAND_MAP[domain] in Ids() by {
        DomainMapTargetsWhitelist();
        IdMapIsRegisteredWhitelist();
      }
      GetBrand(DOMAIN_BRAND_MAP[domain])
    else None
  }

  /** `getBrandColors`. */
  function GetBrandColors(id: string): (r: Option<ColorScheme>)
    ensures r.Some? <==> id in Ids()
    ensures r.Some? ==> exists b :: b in BRANDS && b.id == id && r.value == b.colorScheme
  {
    match GetBrand(id)
    case Some(b) => Some(b.colorScheme)
    case None => None
  }

  /** `getBrandAssets`. */
  function GetBrandAssets(id: string): (r: Option<Assets>)
    ensures r.Some? <==> id in Ids()
    ensures r.Some? ==> exists b :: b in BRANDS && b.id == id && r.value == b.assets
  {
    match GetBrand(id)
    case Some(b) => Some(b.assets)
    case None => None
  }

  // ---- the current-brand cell ------------------------------------------------------

  /** The `localStorage` key that mirrors the cell. */
  const STORAGE_KEY := "currentBrandId"

  /** The whitelist test on an own key of `BRAND_ID_MAP` (see `AcceptedAsWritten` for the test as written). */
  predicate IsSelectableId(id: string) {
    id in BRAND_ID_MAP && BRAND_ID_MAP[id] != ""
  }

  /** The module state: `currentBrandId` and the page's `localStorage`. */
  datatype BrandState = BrandState(currentBrandId: Option<string>, localStorage: map<string, string>)

  /** The cell is unset or holds a selectable id. */
  predicate CellInvariant(s: BrandState) {
    s.currentBrandId.Some? ==> IsSelectableId(s.currentBrandId.value)
  }

  /** The module's load-time block: in a browser, adopt the stored id if it is selectable, else the default id. */
  function InitialState(env: Env, storage: map<string, string>): BrandState {
    if env.None? then BrandState(None, storage)
    else if STORAGE_KEY in storage && storage[STORAGE_KEY] != "" && IsSelectableId(storage[STORAGE_KEY]) then
      BrandState(Some(storage[STORAGE_KEY]), storage)
    else BrandState(Some(DEFAULT_BRAND.id), storage)
  }

  /** `setCurrentBrand`: a selectable id is stored, and mirrored into `localStorage` in a browser; anything else is ignored. */
  function SetCurrent(s: BrandState, env: Env, id: string): BrandState {
    if IsSelectableId(id) then
      BrandState(Some(id), if env.Some? then s.localStorage[STORAGE_KEY := id] else s.localStorage)
    else s
  }

  /** `getCurrentBrand`: the default brand when the cell is unset (or empty), otherwise the entry with the stored id. */
  function CurrentBrand(s: BrandState): (r: Option<Brand>)
    ensures r.Some? ==> r.value in BRANDS
    ensures s.currentBrandId.None? ==> r == Some(DEFAULT_BRAND)
    ensures s.currentBrandId.Some? && s.currentBrandId.value != "" ==>
      (r.Some? <==> s.currentBrandId.value in Ids()) && (r.Some? ==> r.value.id == s.currentBrandId.value)
  {
    match s.currentBrandId
    case None => Some(DEFAULT_BRAND)
    case Some(id) => if id == "" then Some(DEFAULT_BRAND) else GetBrand(id)
  }

  /** Load time establishes the invariant; in a browser the cell is set, to the stored id exactly when it is selectable. */
  lemma InitialStateValid(env: Env, storage: map<string, string>)
    ensures CellInvariant(InitialState(env, storage))
    ensures InitialState(env, storage).localStorage == storage
    ensures env.None? ==> InitialState(env, storage).currentBrandId.None?
    ensures env.Some? ==>
      InitialState(env, storage).currentBrandId ==
        if STORAGE_KEY in storage && IsSelectableId(storage[STORAGE_KEY])
        then Some(storage[STORAGE_KEY]) else Some(DEFAULT_BRAND.id)
  {
    assert IsSelectableId(DEFAULT_BRAND.id);
  }

  /** `setCurrentBrand` changes the cell and storage exactly for selectable ids, and keeps the invariant. */
  lemma SetCurrentFilters(s: BrandState, env: Env, id: string)
    ensures CellInvariant(s) ==> CellInvariant(SetCurrent(s, env, id))
    ensures !IsSelectableId(id) ==> SetCurrent(s, env, id) == s
    ensures IsSelectableId(id) ==> SetCurrent(s, env, id).currentBrandId == Some(id)
    ensures IsSelectableId(id) && env.Some? ==>
      SetCurrent(s, env, id).localStorage == s.localStorage[STORAGE_KEY := id]
    ensures env.None? ==> SetCurrent(s, env, id).localStorage == s.localStorage
  {
  }

  /** `"connectwise"` is registered but not selectable, and an unknown id is ignored as well. */
  lemma SetCurrentIgnoresUnselectable(s: BrandState, env: Env)
    ensures SetCurrent(s, env, "connectwise") == s
    ensures SetCurrent(s, env, "not-a-real-brand") == s
  {
  }

  /** Setting the same id twice is the same as setting it once. */
  lemma SetCurrentIdempotent(s: BrandState, env: Env, id: string)
    ensures SetCurrent(SetCurrent(s, env, id), env, id) == SetCurrent(s, env, id)
  {
  }

  /** Under the invariant the read never fails: unset reads as the default, set reads as that id's entry. */
  lemma CurrentBrandNeverNull(s: BrandState)
    requires CellInvariant(s)
    ensures CurrentBrand(s).Some?
    ensures s.currentBrandId.None? ==> CurrentBrand(s) == Some(DEFAULT_BRAND)
    ensures s.currentBrandId.Some? ==> CurrentBrand(s).value.id == s.currentBrandId.value
  {
    if s.currentBrandId.Some? {
      DomainIdsAreRegistered();
    }
  }

  lemma DomainIdsAreRegistered()
    ensures forall k :: k in BRAND_ID_MAP ==> k in Ids() && k != ""
  {
    IdMapIsRegisteredWhitelist();
  }

  /**
   * Reading after a write, from any state: a selectable id reads back as its registry entry,
   * any other id leaves the read as it was, which after a fresh load is the default brand.
   */
  lemma SetThenRead(s: BrandState, env: Env, id: string)
    ensures CurrentBrand(SetCurrent(s, env, id)) ==
      if IsSelectableId(id) then GetBrand(id) else CurrentBrand(s)
    ensures IsSelectableId(id) ==> GetBrand(id).Some? && GetBrand(id).value.id == id
    ensures !IsSelectableId(id) ==>
      CurrentBrand(SetCurrent(InitialState(env, map[]), env, id)) == Some(DEFAULT_BRAND)
  {
    if IsSelectableId(id) {
      DomainIdsAreRegistered();
    }
    assert IsSelectableId(DEFAULT_BRAND.id);
  }

  // ---- the whitelist test as written (see README, Findings) ------------------------

  /**
   * `BRAND_ID_MAP[brandId]` is a property read on a plain object literal, so besides the own
   * keys it is truthy for every name inherited from `Object.prototype`.
   */
  predicate AcceptedAsWritten(id: string) {
    IsSelectableId(id) || id in OBJECT_PROTOTYPE_NAMES
  }

  /** `setCurrentBrand` with the whitelist test as written. */
  function SetCurrentAsWritten(s: BrandState, env: Env, id: string): BrandState {
    if AcceptedAsWritten(id) then
      BrandState(Some(id), if env.Some? then s.localStorage[STORAGE_KEY := id] else s.localStorage)
    else s
  }

  /** Counterexample: `setCurrentBrand("constructor")` is accepted as written, and `getCurrentBrand()` then returns null. */
  lemma PrototypeNamePassesWhitelist(s: BrandState, env: Env)
    ensures AcceptedAsWritten("constructor") && !IsSelectableId("constructor")
    ensures SetCurrentAsWritten(s, env, "constructor").currentBrandId == Some("constructor")
    ensures CurrentBrand(SetCurrentAsWritten(s, env, "constructor")).None?
    ensures SetCurrent(s, env, "constructor") == s
  {
    assert "constructor" !in Ids() by { RegistryIds(); }
  }

  /** Both tests agree on every name that is not inherited from `Object.prototype`. */
  lemma AsWrittenAgreesOffPrototype(s: BrandState, env: Env, id: string)
    requires id !in OBJECT_PROTOTYPE_NAMES
    ensures SetCurrentAsWritten(s, env, id) == SetCurrent(s, env, id)
  {
  }

  // ---- brandHelpers ---------------------------------------------------------------

  /** `getCurrentBrandColors`. */
  function CurrentBrandColors(s: BrandState): (c: ColorScheme)
    ensures exists b :: b in BRANDS && c == b.colorScheme
    ensures CellInvariant(s) ==> CurrentBrand(s).Some? && c == CurrentBrand(s).value.colorScheme
  {
    CurrentBrandNeverNullIfValid(s);
    match CurrentBrand(s)
    case Some(b) => b.colorScheme
    case None => DEFAULT_BRAND.colorScheme
  }

  /** `getCurrentBrandAssets`. */
  function CurrentBrandAssets(s: BrandState): (a: Assets)
    ensures exists b :: b in BRANDS && a == b.assets
    ensures CellInvariant(s) ==> CurrentBrand(s).Some? && a == CurrentBrand(s).value.assets
  {
    CurrentBrandNeverNullIfValid(s);
    match CurrentBrand(s)
    case Some(b) => b.assets
    case None => DEFAULT_BRAND.assets
  }

  lemma CurrentBrandNeverNullIfValid(s: BrandState)
    ensures CellInvariant(s) ==> CurrentBrand(s).Some?
  {
    if CellInvariant(s) {
      CurrentBrandNeverNull(s);
    }
  }

  /** `theme === "dark"`: only that exact text picks the dark logo; any other or omitted theme picks light. */
  predicate IsDarkTheme(theme: Option<string>) {
    theme == Some("dark")
  }

  function LogoFor(a: Assets, theme: Option<string>): (url: string)
    ensures url == a.logo.dark || url == a.logo.light
    ensures IsDarkTheme(theme) ==> url == a.logo.dark
    ensures !IsDarkTheme(theme) ==> url == a.logo.light
  {
    if IsDarkTheme(theme) then a.logo.dark else a.logo.light
  }

  /** `getCurrentBrandLogo`. */
  function CurrentBrandLogo(s: BrandState, theme: Option<string>): (url: string)
    ensures IsDarkTheme(theme) ==> url == CurrentBrandAssets(s).logo.dark
    ensures !IsDarkTheme(theme) ==> url == CurrentBrandAssets(s).logo.light
  {
    LogoFor(CurrentBrandAssets(s), theme)
  }

  /** `getCurrentBrandFavicon`. */
  function CurrentBrandFavicon(s: BrandState): (url: string)
    ensures exists b :: b in BRANDS && url == b.assets.logo.favicon
    ensures CellInvariant(s) ==> CurrentBrand(s).Some? && url == CurrentBrand(s).value.assets.logo.favicon
    ensures s.currentBrandId.None? ==> url == DEFAULT_BRAND.assets.logo.favicon
  {
    CurrentBrandAssets(s).logo.favicon
  }

  const UNDEFINED_PROPERTY_ERROR := "TypeError: cannot read properties of undefined"

  /** `features[feature]`, where an absent `features` object makes the read throw; a missing key reads as false. */
  function FeatureFlag(features: Option<map<string, bool>>, feature: string): (r: Outcome<bool>)
    ensures r.Throws? <==> features.None?
    ensures r.Value? ==> (r.value <==> feature in features.value && features.value[feature])
  {
    match features
    case None => Throws(UNDEFINED_PROPERTY_ERROR)
    case Some(m) => Value(feature in m && m[feature])
  }

  /** `settings[setting]`, where an absent `settings` object makes the read throw; a missing key reads as `""` (falsy). */
  function SettingValue(settings: Option<map<string, string>>, setting: string): (r: Outcome<string>)
    ensures r.Throws? <==> settings.None?
    ensures r.Value? && r.value != "" ==> setting in settings.value && r.value == settings.value[setting]
  {
    match settings
    case None => Throws(UNDEFINED_PROPERTY_ERROR)
    case Some(m) => Value(if setting in m then m[setting] else "")
  }

  /** `brandHelpers.hasFeature`: `currentBrand?.features[feature] || false`. */
  function HelperHasFeature(s: BrandState, feature: string): (r: Outcome<bool>)
    ensures CurrentBrand(s).None? ==> r == Value(false)
    ensures CurrentBrand(s).Some? ==> (r.Throws? <==> CurrentBrand(s).value.features.None?)
  {
    match CurrentBrand(s)
    case None => Value(false)
    case Some(b) => FeatureFlag(b.features, feature)
  }

  /** `brandHelpers.getSetting`: the current brand's value if truthy, else the default brand's. */
  function HelperGetSetting(s: BrandState, setting: string): (r: Outcome<string>)
    ensures CurrentBrand(s).Some? && CurrentBrand(s).value.settings.None? ==> r.Throws?
    ensures DEFAULT_BRAND.settings.None? ==> r.Throws? || r.value != ""
  {
    var fromCurrent := match CurrentBrand(s)
      case None => Value("")
      case Some(b) => SettingValue(b.settings, setting);
    if fromCurrent.Throws? || fromCurrent.value != "" then fromCurrent
    else SettingValue(DEFAULT_BRAND.settings, setting)
  }

  /** With the registry as it is, the helpers' feature and setting lookups throw for every registered current brand. */
  lemma HelpersThrowOnRegistry(s: BrandState, name: string)
    requires CellInvariant(s)
    ensures HelperHasFeature(s, name).Throws?
    ensures HelperGetSetting(s, name).Throws?
  {
    CurrentBrandNeverNull(s);
  }

  // ---- generateCSSVariables ------------------------------------------------------

  /** The variable names, in the order the table lists them. */
  const CSS_VARIABLE_NAMES: seq<string> := [
    "--brand-primary", "--brand-secondary", "--brand-accent", "--brand-background",
    "--brand-surface", "--brand-text-primary", "--brand-text-secondary",
    "--brand-text-disabled", "--brand-border", "--brand-success", "--brand-warning",
    "--brand-error", "--brand-info",
    "--brand-primary-rgb", "--brand-secondary-rgb", "--brand-accent-rgb"]

  /** The names are sixteen distinct keys. */
  lemma CssVariableNamesDistinct()
    ensures |CSS_VARIABLE_NAMES| == 16
    ensures forall i, j :: 0 <= i < j < 16 ==> CSS_VARIABLE_NAMES[i] != CSS_VARIABLE_NAMES[j]
  {
  }

  /**
   * The variable table for one colour scheme, as the object's entries in order: the thirteen
   * colours copied, then the `-rgb` triplets of primary, secondary and accent.
   */
  function CssVariables(c: ColorScheme): (vars: seq<(string, string)>)
    ensures |vars| == 16
    ensures forall i :: 0 <= i < 16 ==> vars[i].0 == CSS_VARIABLE_NAMES[i]
    ensures forall i :: 0 <= i < 13 ==> vars[i].1 == Colors(c)[i]
    ensures vars[13].1 == HexToRgb(c.primary)
    ensures vars[14].1 == HexToRgb(c.secondary)
    ensures vars[15].1 == HexToRgb(c.accent)
  {
    var values := Colors(c) + [HexToRgb(c.primary), HexToRgb(c.secondary), HexToRgb(c.accent)];
    seq(16, i requires 0 <= i < 16 => (CSS_VARIABLE_NAMES[i], values[i]))
  }

  /** `generateCSSVariables`: the table for the current brand's colours (the default brand's as fallback). */
  function GenerateCSSVariables(s: BrandState): (vars: seq<(string, string)>)
    ensures exists b :: b in BRANDS && vars == CssVariables(b.colorScheme)
    ensures CellInvariant(s) ==> CurrentBrand(s).Some? && vars == CssVariables(CurrentBrand(s).value.colorScheme)
    ensures s.currentBrandId.None? ==> vars == CssVariables(DEFAULT_BRAND.colorScheme)
  {
    CssVariables(CurrentBrandColors(s))
  }

  /**
   * For any state keeping the invariant, the `-rgb` entries carry the current brand's primary,
   * secondary and accent as decoded triplets, never the fallback text's branch.
   */
  lemma RgbVariablesFollowCurrentBrand(s: BrandState)
    requires CellInvariant(s)
    ensures GenerateCSSVariables(s)[13] == ("--brand-primary-rgb", HexToRgb(CurrentBrand(s).value.colorScheme.primary))
    ensures GenerateCSSVariables(s)[14] == ("--brand-secondary-rgb", HexToRgb(CurrentBrand(s).value.colorScheme.secondary))
    ensures GenerateCSSVariables(s)[15] == ("--brand-accent-rgb", HexToRgb(CurrentBrand(s).value.colorScheme.accent))
    ensures MatchesHexPattern(CurrentBrand(s).value.colorScheme.primary)
  {
    CurrentBrandNeverNull(s);
    RegistryRgbVariablesDecode(CurrentBrand(s).value);
  }

  /** Registry colours always decode: the `-rgb` entries are never the fallback branch of `hexToRgb`. */
  lemma RegistryRgbVariablesDecode(b: Brand)
    requires b in BRANDS
    ensures MatchesHexPattern(b.colorScheme.primary)
    ensures MatchesHexPattern(b.colorScheme.secondary)
    ensures MatchesHexPattern(b.colorScheme.accent)
  {
    RegistryColorsAreHex();
    var c := b.colorScheme;
    assert c.primary in Colors(c) && c.secondary in Colors(c) && c.accent in Colors(c);
    HexColorMatches(c.primary);
    HexColorMatches(c.secondary);
    HexColorMatches(c.accent);
  }

  lemma HexColorMatches(s: string)
    requires IsHexColor(s)
    ensures MatchesHexPattern(s)
  {
    assert forall i :: 0 <= i < 6 ==> s[1..][i] == s[i + 1];
  }

  /** Theme-variable scenario: with the default brand current, `--brand-primary-rgb` is `"30, 41, 59"`. */
  lemma DefaultPrimaryRgb(env: Env)
    ensures GenerateCSSVariables(InitialState(env, map[]))[13] == ("--brand-primary-rgb", "30, 41, 59")
  {
    var s := InitialState(env, map[]);
    FreshLoadReadsDefault(env);
    RgbVariablesFollowCurrentBrand(s);
    DefaultPrimaryColor();
    HexToRgbExample();
  }

  /** After a load with empty storage the current brand is the default one. */
  lemma FreshLoadReadsDefault(env: Env)
    ensures CellInvariant(InitialState(env, map[]))
    ensures CurrentBrand(InitialState(env, map[])) == Some(DEFAULT_BRAND)
  {
    InitialStateValid(env, map[]);
    CurrentBrandNeverNull(InitialState(env, map[]));
    RegistryIds();
  }

  lemma DefaultPrimaryColor()
    ensures DEFAULT_BRAND.colorScheme.primary == "#1e293b"
  {
  }

  // ---- the module state as an object ---------------------------------------------

  /**
   * The module-level state of brand-utils: `currentBrandId`, the page's `localStorage`,
   * and a count of theme applications (`initializeBrandTheme` calls) standing for its DOM writes.
   */
  class BrandStore {
    const env: Env
    var currentBrandId: Option<string>
    var localStorage: map<string, string>
    var themeApplications: nat

    function State(): BrandState
      reads this
    {
      BrandState(currentBrandId, localStorage)
    }

    ghost predicate Valid()
      reads this
    {
      CellInvariant(State())
    }

    /** Module load: the initialisation block over the given `localStorage` contents. */
    constructor (env: Env, storage: map<string, string>)
      ensures this.env == env && State() == InitialState(env, storage)
      ensures themeApplications == 0
      ensures Valid()
    {
      this.env := env;
      var s := InitialState(env, storage);
      currentBrandId := s.currentBrandId;
      localStorage := storage;
      themeApplications := 0;
      InitialStateValid(env, storage);
    }

    /** `brandUtils.setCurrentBrand`. */
    method SetCurrentBrand(id: string)
      modifies this
      ensures State() == SetCurrent(old(State()), env, id)
      ensures themeApplications == old(themeApplications)
      ensures old(Valid()) ==> Valid()
    {
      if IsSelectableId(id) {
        currentBrandId := Some(id);
        if env.Some? {
          localStorage := localStorage[STORAGE_KEY := id];
        }
      }
    }

    /** `brandHelpers.initializeBrandTheme`, recorded as one more theme application. */
    method InitializeBrandTheme()
      modifies this
      ensures State() == old(State())
      ensures themeApplications == old(themeApplications) + 1
    {
      themeApplications := themeApplications + 1;
    }
  }
}
