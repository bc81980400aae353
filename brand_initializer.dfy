/**
 * src/components/BrandInitailizer/BrandInitailizer.tsx: the client effect that reconciles the
 * brand cell. Each run applies a `?brand=` override, then, while the component's hook has no
 * brand yet, detects the brand from the cookie or the hostname, and finally applies the theme.
 */
module BrandInitializer {
  import opened Wrappers
  import opened Runtime
  import opened JsString
  import opened BrandUtils
  import opened CookieUtils
  import opened DomainUtils
  import opened UseBrand

  /** The `?brand=` step: a truthy query value, in a browser, is handed to `setCurrentBrand`. */
  function QueryOverride(s: BrandState, env: Env): (s': BrandState)
    ensures !(env.Some? && Truthy(env.value.brandParam)) ==> s' == s
    ensures CellInvariant(s) ==> CellInvariant(s')
  {
    if env.Some? && Truthy(env.value.brandParam) then
      SetCurrentFilters(s, env, env.value.brandParam.value);
      SetCurrent(s, env, env.value.brandParam.value)
    else s
  }

  /** One run of the effect on the cell, `known` being whether the hook's `currentBrand` is non-null. */
  function EffectRun(s: BrandState, env: Env, known: bool): BrandState {
    var overridden := QueryOverride(s, env);
    if known then overridden else InitializeFromDomain(overridden, env)
  }

  /** The effect body against the shared cell, with the component's hook supplying `currentBrand` and `applyBrandTheme`. */
  method RunEffect(hook: BrandHook)
    modifies hook.store
    ensures hook.store.State() == EffectRun(old(hook.store.State()), hook.store.env, hook.currentBrand.Some?)
    ensures hook.store.themeApplications == old(hook.store.themeApplications) + 1
    ensures old(hook.store.Valid()) ==> hook.store.Valid()
  {
    var store := hook.store;
    var env := store.env;
    if env.Some? {
      var qsBrand := env.value.brandParam;
      if Truthy(qsBrand) {
        store.SetCurrentBrand(qsBrand.value);
      }
    }
    if hook.currentBrand.None? {
      InitializeBrandFromDomain(store);
    }
    hook.ApplyBrandTheme();
  }

  // ---- properties of a run ---------------------------------------------------------

  /** Every run keeps the cell unset or holding a selectable id. */
  lemma EffectKeepsInvariant(s: BrandState, env: Env, known: bool)
    requires CellInvariant(s)
    ensures CellInvariant(EffectRun(s, env, known))
  {
  }

  /** The override goes through the cell's filter: a selectable value is stored, anything else changes nothing. */
  lemma OverrideIsFiltered(s: BrandState, b: Browser)
    requires Truthy(b.brandParam)
    ensures IsSelectableId(b.brandParam.value) ==> QueryOverride(s, Some(b)).currentBrandId == b.brandParam
    ensures !IsSelectableId(b.brandParam.value) ==> QueryOverride(s, Some(b)) == s
  {
    SetCurrentFilters(s, Some(b), b.brandParam.value);
  }

  /** With the hook's brand known, a run only re-applies the override, so repeating it changes nothing more. */
  lemma KnownBrandRunIsIdempotent(s: BrandState, env: Env)
    ensures EffectRun(s, env, true) == QueryOverride(s, env)
    ensures EffectRun(EffectRun(s, env, true), env, true) == EffectRun(s, env, true)
  {
    if env.Some? && Truthy(env.value.brandParam) {
      SetCurrentIdempotent(s, env, env.value.brandParam.value);
    }
  }

  /** While the hook's brand is unknown, a detected selectable brand overwrites the override within the same run. */
  lemma DetectionOverwritesOverride(s: BrandState, env: Env)
    requires DetectBrandFromDomain(env).Some? && IsSelectableId(DetectBrandFromDomain(env).value)
    ensures EffectRun(s, env, false).currentBrandId == DetectBrandFromDomain(env)
  {
    SetCurrentFilters(QueryOverride(s, env), env, DetectBrandFromDomain(env).value);
  }

  /** A brand cookie naming a selectable id beats any query override in a run where the hook's brand is still null. */
  lemma CookieBeatsQueryInFirstRun(s: BrandState, hostname: string, query: Option<string>, id: string)
    requires IsSelectableId(id)
    ensures EffectRun(s, Some(Browser(hostname, query, BRAND_COOKIE_PREFIX + id)), false).currentBrandId == Some(id)
  {
    var b := Browser(hostname, query, BRAND_COOKIE_PREFIX + id);
    CookieIsDetected(b, id);
    DetectionOverwritesOverride(s, Some(b));
  }

  /** A page whose cookie string is just the brand pair of a selectable id detects that id. */
  lemma CookieIsDetected(b: Browser, id: string)
    requires IsSelectableId(id) && b.cookie == BRAND_COOKIE_PREFIX + id
    ensures DetectBrandFromDomain(Some(b)) == Some(id)
  {
    SelectableIdsAreCookieSafe(id);
    ParseLonePair(id);
    DetectPrecedence(Some(b));
  }

  /** The selectable ids can travel in the brand cookie unchanged. */
  lemma SelectableIdsAreCookieSafe(id: string)
    requires IsSelectableId(id)
    ensures IsCookieSafeValue(id)
  {
    assert id == "mybrand" || id == "zumar";
  }

  /**
   * Once the hook has a brand the effect runs again and re-applies the override, so after both
   * runs a selectable query value is what the cell holds, whatever was detected in between.
   */
  lemma OverrideWinsAfterRerun(s: BrandState, b: Browser)
    requires Truthy(b.brandParam) && IsSelectableId(b.brandParam.value)
    ensures EffectRun(EffectRun(s, Some(b), false), Some(b), true).currentBrandId == b.brandParam
  {
    OverrideIsFiltered(EffectRun(s, Some(b), false), b);
  }
}
