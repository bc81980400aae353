/**
 * The brand registry: the three brand definitions, the default brand, the whitelist of
 * selectable ids and the hostname-to-id table (src/utils/brand-config.ts).
 */
module BrandConfig {
  import opened Wrappers

  datatype TextColors = TextColors(primary: string, secondary: string, disabled: string)

  datatype ColorScheme = ColorScheme(
    primary: string, secondary: string, accent: string, background: string, surface: string,
    text: TextColors,
    border: string, success: string, warning: string, error: string, info: string)

  datatype Logo = Logo(light: string, dark: string, favicon: string)

  datatype Images = Images(hero: string, background: string, placeholder: string)

  datatype Assets = Assets(logo: Logo, images: Images)

  /**
   * One brand definition. `features` and `settings` are the optional key-value maps the
   * consumers index; no registry entry defines them, so they are `None` throughout.
   */
  datatype Brand = Brand(
    id: string, name: string, displayName: string, domain: string, description: string,
    colorScheme: ColorScheme, assets: Assets,
    features: Option<map<string, bool>>, settings: Option<map<string, string>>)

  /** The asset bundle every registry entry shares. */
  const SHARED_ASSETS := Assets(
    Logo("/images/app-logo.svg", "/images/app-logo.svg", "/favicon.ico"),
    Images("/images/best_connect.svg", "/images/login-bg.svg", "/images/visitor.svg"))

  const MYBRAND := Brand(
    "mybrand", "mybrand", "Practice Brand", "mybrand.local",
    "Premium eSIM and connectivity solutions",
    ColorScheme("#1e293b", "#be5974", "#f59e0b", "#ffffff", "#f8fafc",
                TextColors("#1e293b", "#64748b", "#94a3b8"),
                "#e2e8f0", "#10b981", "#f59e0b", "#ef4444", "#3b82f6"),
    SHARED_ASSETS, None, None)

  const ZUMAR := Brand(
    "zumar", "zumar", "eSIM Go", "zumar.local",
    "Global eSIM connectivity platform",
    ColorScheme("#7c3aed", "#6b7280", "#ec4899", "#ffffff", "#f9fafb",
                TextColors("#111827", "#6b7280", "#9ca3af"),
                "#d1d5db", "#059669", "#d97706", "#dc2626", "#2563eb"),
    SHARED_ASSETS, None, None)

  const CONNECTWISE := Brand(
    "connectwise", "connectwise", "ConnectWise", "connectwise.com",
    "Smart connectivity solutions for businesses",
    ColorScheme("#059669", "#4b5563", "#f97316", "#ffffff", "#f3f4f6",
                TextColors("#1f2937", "#4b5563", "#9ca3af"),
                "#e5e7eb", "#047857", "#ea580c", "#b91c1c", "#1d4ed8"),
    SHARED_ASSETS, None, None)

  /** `BRANDS`, in registration order. */
  const BRANDS: seq<Brand> := [MYBRAND, ZUMAR, CONNECTWISE]

  /** `DEFAULT_BRAND`: the first registered brand. */
  const DEFAULT_BRAND: Brand := BRANDS[0]

  /** `BRAND_ID_MAP`: the ids that may be selected, each mapped to itself. */
  const BRAND_ID_MAP: map<string, string> := map["mybrand" := "mybrand", "zumar" := "zumar"]

  /** `DOMAIN_BRAND_MAP`: exact hostnames to brand ids. */
  const DOMAIN_BRAND_MAP: map<string, string> := map["mybrand.local" := "mybrand", "zumar.local" := "zumar"]

  /** The keys of `DOMAIN_BRAND_MAP` in insertion order, the order `Object.entries` visits them. */
  const DOMAIN_BRAND_ORDER: seq<string> := ["mybrand.local", "zumar.local"]

  /**
   * The names every plain object literal inherits from `Object.prototype`; indexing
   * `BRAND_ID_MAP` or `DOMAIN_BRAND_MAP` with one of them yields a (truthy) inherited member.
   */
  const OBJECT_PROTOTYPE_NAMES: set<string> := {
    "constructor", "__proto__", "hasOwnProperty", "isPrototypeOf", "propertyIsEnumerable",
    "toLocaleString", "toString", "valueOf", "__defineGetter__", "__defineSetter__",
    "__lookupGetter__", "__lookupSetter__"}

  /** The registry ids in registration order. */
  function Ids(): (ids: seq<string>)
    ensures |ids| == |BRANDS| && forall i :: 0 <= i < |BRANDS| ==> ids[i] == BRANDS[i].id
  {
    seq(|BRANDS|, i requires 0 <= i < |BRANDS| => BRANDS[i].id)
  }

  /** The thirteen colour values of a scheme, in declaration order. */
  function Colors(c: ColorScheme): seq<string> {
    [c.primary, c.secondary, c.accent, c.background, c.surface,
     c.text.primary, c.text.secondary, c.text.disabled,
     c.border, c.success, c.warning, c.error, c.info]
  }

  predicate IsHexDigit(c: char) {
    '0' <= c <= '9' || 'a' <= c <= 'f' || 'A' <= c <= 'F'
  }

  /** `#` followed by exactly six hexadecimal digits. */
  predicate IsHexColor(s: string) {
    |s| == 7 && s[0] == '#' && forall i :: 1 <= i < 7 ==> IsHexDigit(s[i])
  }

  // ---- properties of the registry ---------------------------------------------

  /** The default brand is the first entry, whose id is `mybrand`. */
  lemma DefaultBrandIsFirst()
    ensures DEFAULT_BRAND == BRANDS[0] && DEFAULT_BRAND.id == "mybrand"
    ensures DEFAULT_BRAND in BRANDS
  {
  }

  /** The ids are `mybrand`, `zumar`, `connectwise`, in that order, and pairwise distinct. */
  lemma RegistryIds()
    ensures Ids() == ["mybrand", "zumar", "connectwise"]
    ensures forall i, j :: 0 <= i < j < |BRANDS| ==> BRANDS[i].id != BRANDS[j].id
  {
  }

  /** Every whitelisted key maps to itself and names a registry entry; `connectwise` is registered but not selectable. */
  lemma IdMapIsRegisteredWhitelist()
    ensures forall k :: k in BRAND_ID_MAP ==> BRAND_ID_MAP[k] == k && k in Ids()
    ensures "connectwise" in Ids() && "connectwise" !in BRAND_ID_MAP
  {
    assert Ids() == ["mybrand", "zumar", "connectwise"];
  }

  /** Every hostname maps to a selectable id; the insertion order lists exactly the keys, once each. */
  lemma DomainMapTargetsWhitelist()
    ensures forall h :: h in DOMAIN_BRAND_MAP ==> DOMAIN_BRAND_MAP[h] in BRAND_ID_MAP
    ensures forall h :: h in DOMAIN_BRAND_MAP <==> h in DOMAIN_BRAND_ORDER
    ensures forall i, j :: 0 <= i < j < |DOMAIN_BRAND_ORDER| ==> DOMAIN_BRAND_ORDER[i] != DOMAIN_BRAND_ORDER[j]
  {
  }

  /** `mybrand` and `zumar` are found again from their own `domain` field; `connectwise.com` is not in the table. */
  lemma DomainFieldsMapBack()
    ensures DOMAIN_BRAND_MAP[MYBRAND.domain] == MYBRAND.id
    ensures DOMAIN_BRAND_MAP[ZUMAR.domain] == ZUMAR.id
    ensures CONNECTWISE.domain == "connectwise.com" && CONNECTWISE.domain !in DOMAIN_BRAND_MAP
  {
  }

  /** Every colour of every registry entry is `#` and six hex digits. */
  lemma RegistryColorsAreHex()
    ensures forall b, c :: b in BRANDS && c in Colors(b.colorScheme) ==> IsHexColor(c)
  {
    SchemeIsHex(MYBRAND.colorScheme);
    SchemeIsHex(ZUMAR.colorScheme);
    SchemeIsHex(CONNECTWISE.colorScheme);
    forall b, c | b in BRANDS && c in Colors(b.colorScheme) ensures IsHexColor(c) {
      assert b == MYBRAND || b == ZUMAR || b == CONNECTWISE;
      var i :| 0 <= i < 13 && Colors(b.colorScheme)[i] == c;
    }
  }

  /** The colours of one registry scheme, checked one by one. */
  lemma SchemeIsHex(c: ColorScheme)
    requires c == MYBRAND.colorScheme || c == ZUMAR.colorScheme || c == CONNECTWISE.colorScheme
    ensures forall i :: 0 <= i < 13 ==> IsHexColor(Colors(c)[i])
  {
    forall i | 0 <= i < 13 ensures IsHexColor(Colors(c)[i]) {
      var s := Colors(c)[i];
      if c == MYBRAND.colorScheme {
        MybrandHexLiteral(s);
      } else if c == ZUMAR.colorScheme {
        ZumarHexLiteral(s);
      } else {
        ConnectwiseHexLiteral(s);
      }
    }
  }

  lemma MybrandHexLiteral(s: string)
    requires s in {"#1e293b", "#be5974", "#f59e0b", "#ffffff", "#f8fafc", "#64748b", "#94a3b8",
                   "#e2e8f0", "#10b981", "#ef4444", "#3b82f6"}
    ensures IsHexColor(s)
  {
  }

  lemma ZumarHexLiteral(s: string)
    requires s in {"#7c3aed", "#6b7280", "#ec4899", "#ffffff", "#f9fafb", "#111827", "#9ca3af",
                   "#d1d5db", "#059669", "#d97706", "#dc2626", "#2563eb"}
    ensures IsHexColor(s)
  {
  }

  lemma ConnectwiseHexLiteral(s: string)
    requires s in {"#059669", "#4b5563", "#f97316", "#ffffff", "#f3f4f6", "#1f2937", "#9ca3af",
                   "#e5e7eb", "#047857", "#ea580c", "#b91c1c", "#1d4ed8"}
    ensures IsHexColor(s)
  {
  }

  /** No registry entry defines `features` or `settings`. */
  lemma RegistryHasNoFeaturesOrSettings()
    ensures forall b :: b in BRANDS ==> b.features.None? && b.settings.None?
  {
  }

  /** The selectable ids and the hostnames are ordinary names, none inherited from `Object.prototype`. */
  lemma TableKeysAreNotPrototypeNames()
    ensures forall k :: k in BRAND_ID_MAP ==> k !in OBJECT_PROTOTYPE_NAMES
    ensures forall h :: h in DOMAIN_BRAND_MAP ==> h !in OBJECT_PROTOTYPE_NAMES
  {
  }
}
