/**
 * src/provider/BrandProvider.tsx: the context provider. It keeps its own copy of the current
 * brand (`currentBrand`, `isLoading`), seeds the brand cell from `initialBrandId`, and derives
 * colours, assets, logo, favicon, feature flags and settings from its copy, falling back to the
 * brand helpers while the copy is null. src/hooks/useBrand.ts derives the same values in the
 * same way, so the derivations here serve both.
 */
module BrandProvider {
  import opened Wrappers
  import opened JsString
  import opened BrandConfig
  import opened BrandUtils

  // ---- derivations shared by the provider and the hook ----------------------------

  /**
   * `currentBrand?.colorScheme || brandHelpers.getCurrentBrandColors()`: a held copy supplies its
   * own scheme whatever the cell holds; only a null copy consults the cell.
   */
  function ColorsView(current: Option<Brand>, s: BrandState): (c: ColorScheme)
    ensures current.Some? ==> c == current.value.colorScheme
    ensures current.None? ==> c == CurrentBrandColors(s)
    ensures (current.None? || current.value in BRANDS) ==> exists b :: b in BRANDS && c == b.colorScheme
  {
    match current
    case Some(b) => b.colorScheme
    case None => CurrentBrandColors(s)
  }

  /**
   * `currentBrand?.assets || brandHelpers.getCurrentBrandAssets()`: a held copy supplies its own
   * assets whatever the cell holds; only a null copy consults the cell.
   */
  function AssetsView(current: Option<Brand>, s: BrandState): (a: Assets)
    ensures current.Some? ==> a == current.value.assets
    ensures current.None? ==> a == CurrentBrandAssets(s)
    ensures (current.None? || current.value in BRANDS) ==> exists b :: b in BRANDS && a == b.assets
  {
    match current
    case Some(b) => b.assets
    case None => CurrentBrandAssets(s)
  }

  /** `currentBrand?.features[feature] || false`: false while the copy is null; a brand without `features` throws. */
  function FeatureView(current: Option<Brand>, feature: string): (r: Outcome<bool>)
    ensures current.None? ==> r == Value(false)
    ensures current.Some? ==> (r.Throws? <==> current.value.features.None?)
  {
    match current
    case None => Value(false)
    case Some(b) => FeatureFlag(b.features, feature)
  }

  /** `currentBrand?.settings[setting] || brandHelpers.getSetting(setting)`: a falsy own value defers to the helper. */
  function SettingView(current: Option<Brand>, s: BrandState, setting: string): (r: Outcome<string>)
    ensures current.None? ==> r == HelperGetSetting(s, setting)
    ensures current.Some? && current.value.settings.None? ==> r.Throws?
    ensures (current.Some? && current.value.settings.Some? && setting in current.value.settings.value &&
             current.value.settings.value[setting] != "") ==>
      r == Value(current.value.settings.value[setting])
  {
    var own := match current
      case None => Value("")
      case Some(b) => SettingValue(b.settings, setting);
    if own.Throws? || own.value != "" then own else HelperGetSetting(s, setting)
  }

  /** When the copy mirrors the cell, the copy and the helper fallbacks give the same values. */
  lemma MirroredViewsAgree(s: BrandState, feature: string, setting: string)
    requires CellInvariant(s)
    ensures ColorsView(CurrentBrand(s), s) == CurrentBrandColors(s)
    ensures AssetsView(CurrentBrand(s), s) == CurrentBrandAssets(s)
    ensures FeatureView(CurrentBrand(s), feature) == HelperHasFeature(s, feature)
    ensures SettingView(CurrentBrand(s), s, setting).Throws? == HelperGetSetting(s, setting).Throws?
  {
    CurrentBrandNeverNull(s);
  }

  /** A held copy hides the cell: two cells give the same colours and assets for the same copy. */
  lemma CopyShadowsCell(b: Brand, s1: BrandState, s2: BrandState)
    ensures ColorsView(Some(b), s1) == ColorsView(Some(b), s2) == b.colorScheme
    ensures AssetsView(Some(b), s1) == AssetsView(Some(b), s2) == b.assets
  {
  }

  /**
   * A stale copy wins over the cell: a copy still holding `zumar` while the cell was rewritten to
   * `mybrand` (as the initializer's effect can do behind the provider's back) yields zumar's
   * colours, which differ from the cell's.
   */
  lemma StaleCopyWins(s: BrandState)
    requires s.currentBrandId == Some("mybrand")
    ensures ColorsView(Some(ZUMAR), s) == ZUMAR.colorScheme
    ensures ColorsView(Some(ZUMAR), s) != CurrentBrandColors(s)
  {
    assert CurrentBrand(s) == Some(MYBRAND);
    assert ZUMAR.colorScheme.primary != MYBRAND.colorScheme.primary;
  }

  /**
   * With the registry as it is (no brand defines `features` or `settings`), the feature and
   * setting lookups throw as soon as the copy holds a brand, and `hasFeature` is false before.
   */
  lemma FeatureAndSettingOnRegistry(current: Option<Brand>, s: BrandState, name: string)
    requires current.None? || current.value in BRANDS
    requires CellInvariant(s)
    ensures current.Some? ==> FeatureView(current, name).Throws? && SettingView(current, s, name).Throws?
    ensures current.None? ==> FeatureView(current, name) == Value(false) && SettingView(current, s, name).Throws?
  {
    RegistryHasNoFeaturesOrSettings();
    HelpersThrowOnRegistry(s, name);
  }

  const NO_PROVIDER_ERROR := "useBrandContext must be used within a BrandProvider"

  /** `useBrandContext`: the nearest provider's value, and an error outside any provider. */
  function UseBrandContext<T>(context: Option<T>): (r: Outcome<T>)
    ensures r.Throws? <==> context.None?
    ensures r.Throws? ==> r.error == NO_PROVIDER_ERROR
    ensures context.Some? ==> r.Value? && r.value == context.value
  {
    match context
    case None => Throws(NO_PROVIDER_ERROR)
    case Some(c) => Value(c)
  }

  // ---- the provider's state -------------------------------------------------------

  /** One mounted provider over the shared brand cell. */
  class Provider {
    const store: BrandStore
    const initialBrandId: Option<string>
    var currentBrand: Option<Brand>
    var isLoading: bool

    /** The first render: no brand copy yet, loading. */
    constructor (store: BrandStore, initialBrandId: Option<string>)
      ensures this.store == store && this.initialBrandId == initialBrandId
      ensures currentBrand.None? && isLoading
    {
      this.store := store;
      this.initialBrandId := initialBrandId;
      currentBrand := None;
      isLoading := true;
    }

    /**
     * `initializeBrand`, the mount effect: a truthy `initialBrandId` goes through the cell's
     * filter first, then the copy takes the cell's brand, the theme is applied once, and loading ends.
     */
    method InitializeBrand()
      modifies this, store
      ensures store.State() ==
        (if Truthy(initialBrandId) then SetCurrent(old(store.State()), store.env, initialBrandId.value)
         else old(store.State()))
      ensures currentBrand == CurrentBrand(store.State()) && !isLoading
      ensures store.themeApplications == old(store.themeApplications) + 1
      ensures old(store.Valid()) ==> store.Valid() && currentBrand.Some?
    {
      isLoading := true;
      if Truthy(initialBrandId) {
        store.SetCurrentBrand(initialBrandId.value);
      }
      currentBrand := CurrentBrand(store.State());
      store.InitializeBrandTheme();
      isLoading := false;
      CurrentBrandNeverNullIfValid(store.State());
    }

    /** `setCurrentBrand`: the cell's filtered write, the copy re-read from the cell, the theme applied again. */
    method SetCurrentBrand(id: string)
      modifies this, store
      ensures store.State() == SetCurrent(old(store.State()), store.env, id)
      ensures currentBrand == CurrentBrand(store.State()) && isLoading == old(isLoading)
      ensures store.themeApplications == old(store.themeApplications) + 1
      ensures old(store.Valid()) ==> store.Valid() && currentBrand.Some?
    {
      store.SetCurrentBrand(id);
      currentBrand := CurrentBrand(store.State());
      store.InitializeBrandTheme();
      CurrentBrandNeverNullIfValid(store.State());
    }

    /** `applyBrandTheme`. */
    method ApplyBrandTheme()
      modifies store
      ensures store.State() == old(store.State())
      ensures store.themeApplications == old(store.themeApplications) + 1
    {
      store.InitializeBrandTheme();
    }

    /** `brandColors`: the copy's scheme, or the helper's (the cell's brand) while the copy is null. */
    function BrandColors(): (c: ColorScheme)
      reads this, store
      ensures currentBrand.Some? ==> c == currentBrand.value.colorScheme
      ensures currentBrand.None? ==> c == CurrentBrandColors(store.State())
    {
      ColorsView(currentBrand, store.State())
    }

    /** `brandAssets`: the copy's assets, or the helper's while the copy is null. */
    function BrandAssets(): (a: Assets)
      reads this, store
      ensures currentBrand.Some? ==> a == currentBrand.value.assets
      ensures currentBrand.None? ==> a == CurrentBrandAssets(store.State())
    {
      AssetsView(currentBrand, store.State())
    }

    /** `getLogo(theme)`, the theme defaulting to light: the dark logo of `brandAssets` only for `"dark"`. */
    function GetLogo(theme: Option<string>): (url: string)
      reads this, store
      ensures currentBrand.Some? ==> url == LogoFor(currentBrand.value.assets, theme)
      ensures currentBrand.None? ==> url == CurrentBrandLogo(store.State(), theme)
      ensures IsDarkTheme(theme) ==> url == BrandAssets().logo.dark
      ensures !IsDarkTheme(theme) ==> url == BrandAssets().logo.light
    {
      LogoFor(BrandAssets(), theme)
    }

    /** `getFavicon`: the favicon of `brandAssets`. */
    function GetFavicon(): (url: string)
      reads this, store
      ensures currentBrand.Some? ==> url == currentBrand.value.assets.logo.favicon
      ensures currentBrand.None? ==> url == CurrentBrandFavicon(store.State())
    {
      BrandAssets().logo.favicon
    }

    /** `hasFeature`: false while the copy is null; a held brand without `features` throws. */
    function HasFeature(feature: string): (r: Outcome<bool>)
      reads this
      ensures currentBrand.None? ==> r == Value(false)
      ensures currentBrand.Some? ==> (r.Throws? <==> currentBrand.value.features.None?)
    {
      FeatureView(currentBrand, feature)
    }

    /** `getSetting`: the helper's value while the copy is null; a held brand without `settings` throws. */
    function GetSetting(setting: string): (r: Outcome<string>)
      reads this, store
      ensures currentBrand.None? ==> r == HelperGetSetting(store.State(), setting)
      ensures currentBrand.Some? && currentBrand.value.settings.None? ==> r.Throws?
    {
      SettingView(currentBrand, store.State(), setting)
    }

    /** `generateCSSVariables`: the helper's table, which reads the cell and ignores the copy. */
    function GenerateCSSVariables(): (vars: seq<(string, string)>)
      reads store
      ensures CellInvariant(store.State()) ==>
        CurrentBrand(store.State()).Some? && vars == CssVariables(CurrentBrand(store.State()).value.colorScheme)
      ensures store.State().currentBrandId.None? ==> vars == CssVariables(DEFAULT_BRAND.colorScheme)
    {
      BrandUtils.GenerateCSSVariables(store.State())
    }
  }
}
