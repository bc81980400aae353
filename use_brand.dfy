/**
 * src/hooks/useBrand.ts: the hook's own copy of the current brand. It starts null, is filled
 * from the brand cell by the mount effect, and is re-read after every write through the hook.
 * Colours, assets, logo, favicon, feature flags and settings come from the copy with the same
 * fallbacks as the provider's.
 */
module UseBrand {
  import opened Wrappers
  import opened BrandConfig
  import opened BrandUtils
  import opened BrandProvider

  /** One component's use of the hook over the shared brand cell. */
  class BrandHook {
    const store: BrandStore
    var currentBrand: Option<Brand>

    /** The first render: the copy is null. */
    constructor (store: BrandStore)
      ensures this.store == store && currentBrand.None?
    {
      this.store := store;
      currentBrand := None;
    }

    /** The mount effect: the copy takes the cell's brand; the cell is only read. */
    method MountEffect()
      modifies this
      ensures currentBrand == CurrentBrand(store.State())
      ensures store.Valid() ==> currentBrand.Some?
    {
      currentBrand := CurrentBrand(store.State());
      CurrentBrandNeverNullIfValid(store.State());
    }

    /** `setCurrentBrand`: the cell's filtered write, then the copy re-read from the cell; no theme is applied. */
    method SetCurrentBrand(id: string)
      modifies this, store
      ensures store.State() == SetCurrent(old(store.State()), store.env, id)
      ensures store.themeApplications == old(store.themeApplications)
      ensures currentBrand == CurrentBrand(store.State())
      ensures old(store.Valid()) ==> store.Valid() && currentBrand.Some?
    {
      store.SetCurrentBrand(id);
      currentBrand := CurrentBrand(store.State());
      CurrentBrandNeverNullIfValid(store.State());
    }

    /** `applyBrandTheme`. */
    method ApplyBrandTheme()
      modifies store
      ensures store.State() == old(store.State())
      ensures store.themeApplications == old(store.themeApplications) + 1
    {
      store.InitializeBrandTheme();
    }

    /** `brandColors`: the copy's scheme, or the helper's (the cell's brand) while the copy is null. */
    function BrandColors(): (c: ColorScheme)
      reads this, store
      ensures currentBrand.Some? ==> c == currentBrand.value.colorScheme
      ensures currentBrand.None? ==> c == CurrentBrandColors(store.State())
    {
      ColorsView(currentBrand, store.State())
    }

    /** `brandAssets`: the copy's assets, or the helper's while the copy is null. */
    function BrandAssets(): (a: Assets)
      reads this, store
      ensures currentBrand.Some? ==> a == currentBrand.value.assets
      ensures currentBrand.None? ==> a == CurrentBrandAssets(store.State())
    {
      AssetsView(currentBrand, store.State())
    }

    /** `getLogo(theme)`, the theme defaulting to light: the dark logo of `brandAssets` only for `"dark"`. */
    function GetLogo(theme: Option<string>): (url: string)
      reads this, store
      ensures currentBrand.Some? ==> url == LogoFor(currentBrand.value.assets, theme)
      ensures currentBrand.None? ==> url == CurrentBrandLogo(store.State(), theme)
      ensures IsDarkTheme(theme) ==> url == BrandAssets().logo.dark
      ensures !IsDarkTheme(theme) ==> url == BrandAssets().logo.light
    {
      LogoFor(BrandAssets(), theme)
    }

    /** `getFavicon`: the favicon of `brandAssets`. */
    function GetFavicon(): (url: string)
      reads this, store
      ensures currentBrand.Some? ==> url == currentBrand.value.assets.logo.favicon
      ensures currentBrand.None? ==> url == CurrentBrandFavicon(store.State())
    {
      BrandAssets().logo.favicon
    }

    /** `hasFeature`: false while the copy is null; a held brand without `features` throws. */
    function HasFeature(feature: string): (r: Outcome<bool>)
      reads this
      ensures currentBrand.None? ==> r == Value(false)
      ensures currentBrand.Some? ==> (r.Throws? <==> currentBrand.value.features.None?)
    {
      FeatureView(currentBrand, feature)
    }

    /** `getSetting`: the helper's value while the copy is null; a held brand without `settings` throws. */
    function GetSetting(setting: string): (r: Outcome<string>)
      reads this, store
      ensures currentBrand.None? ==> r == HelperGetSetting(store.State(), setting)
      ensures currentBrand.Some? && currentBrand.value.settings.None? ==> r.Throws?
    {
      SettingView(currentBrand, store.State(), setting)
    }

    /** `generateCSSVariables`: the helper's table, which reads the cell and ignores the copy. */
    function GenerateCSSVariables(): (vars: seq<(string, string)>)
      reads store
      ensures CellInvariant(store.State()) ==>
        CurrentBrand(store.State()).Some? && vars == CssVariables(CurrentBrand(store.State()).value.colorScheme)
      ensures store.State().currentBrandId.None? ==> vars == CssVariables(DEFAULT_BRAND.colorScheme)
    {
      BrandUtils.GenerateCSSVariables(store.State())
    }
  }

  /**
   * Before the mount effect the hook's colours, assets and logo are the helpers' (the cell's
   * brand, or the default while the cell is unset), and its feature test is false.
   */
  lemma UnmountedFallbacks(s: BrandState, theme: Option<string>, feature: string)
    ensures ColorsView(None, s) == CurrentBrandColors(s)
    ensures LogoFor(AssetsView(None, s), theme) == CurrentBrandLogo(s, theme)
    ensures FeatureView(None, feature) == Value(false)
    ensures s.currentBrandId.None? ==> ColorsView(None, s) == DEFAULT_BRAND.colorScheme
  {
  }
}
