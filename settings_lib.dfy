/**
 * src/renderer/src/lib/settings.ts: the normalisers that turn whatever the
 * key-value store holds into valid settings, and `applyTheme` as a state
 * machine over its module-level listener slot and the document's dark
 * class.
 */
module SettingsLib {
  import opened Wrappers

  datatype ThemeMode = Light | Dark | System

  /** The string each mode is stored as. */
  function ModeName(m: ThemeMode): string {
    match m
    case Light => "light"
    case Dark => "dark"
    case System => "system"
  }

  /** Valid settings: a theme mode and a font scale. */
  datatype Settings = Settings(themeMode: ThemeMode, fontScale: real)

  /**
   * The `settings` object as read from storage, before normalisation. A
   * theme that is not a string, or is absent, is `None`; the font scale is
   * what `Number(value)` gives, `None` when that is NaN (absent, or not
   * numeric).
   */
  datatype RawSettings = RawSettings(themeMode: Option<string>, fontScale: Option<real>)

  /** `normalizeThemeMode`: one of the three mode names maps to its mode, anything else to `system`. */
  function NormalizeThemeMode(v: Option<string>): (m: ThemeMode)
    ensures forall n: ThemeMode :: v == Some(ModeName(n)) ==> m == n
    ensures (forall n: ThemeMode :: v != Some(ModeName(n))) ==> m == System
  {
    if v == Some("light") then assert v == Some(ModeName(Light)); Light
    else if v == Some("dark") then assert v == Some(ModeName(Dark)); Dark
    else System
  }

  /** `normalizeFontScale`: always positive; a positive number is kept, anything else becomes 1.0. */
  function NormalizeFontScale(v: Option<real>): (r: real)
    ensures r > 0.0
    ensures v.Some? && v.value > 0.0 ==> r == v.value
    ensures v.None? || v.value <= 0.0 ==> r == 1.0
  {
    if v.Some? && v.value > 0.0 then v.value else 1.0
  }

  /** Settings written back in their stored form. */
  function ToRaw(s: Settings): RawSettings {
    RawSettings(Some(ModeName(s.themeMode)), Some(s.fontScale))
  }

  /** `normalizeSettings`: each field normalised on its own. */
  function NormalizeSettings(raw: RawSettings): (s: Settings)
    ensures s.fontScale > 0.0
    ensures s.themeMode == NormalizeThemeMode(raw.themeMode)
    ensures s.fontScale == NormalizeFontScale(raw.fontScale)
  {
    Settings(NormalizeThemeMode(raw.themeMode), NormalizeFontScale(raw.fontScale))
  }

  /** Valid settings survive being stored and normalised again. */
  lemma NormalizeStored(s: Settings)
    requires s.fontScale > 0.0
    ensures NormalizeSettings(ToRaw(s)) == s
  {
    match s.themeMode
    case Light =>
    case Dark =>
    case System =>
  }

  /** Normalising twice is normalising once. */
  lemma NormalizeSettingsIdempotent(raw: RawSettings)
    ensures NormalizeSettings(ToRaw(NormalizeSettings(raw))) == NormalizeSettings(raw)
  {
    NormalizeStored(NormalizeSettings(raw));
  }

  /**
   * The module state `applyTheme` works on: the `systemMedia` and
   * `systemListener` slots, the number of system-scheme listeners
   * registered with the browser, and whether the document carries the dark
   * class.
   */
  class ThemeHost {
    var hasMedia: bool
    var hasListener: bool
    var subscriptions: nat
    var dark: bool

    /** The slot holds the only registered listener, and a listener always has its media query. */
    ghost predicate Valid()
      reads this
    {
      subscriptions == (if hasListener then 1 else 0) && (hasListener ==> hasMedia)
    }

    /** Page load: both slots empty, nothing registered, no dark class. */
    constructor ()
      ensures Valid() && !hasMedia && !hasListener && subscriptions == 0 && !dark
    {
      hasMedia, hasListener, subscriptions, dark := false, false, 0, false;
    }

    /**
     * `applyTheme`: first unregisters the listener held in the slot; then,
     * for `system`, follows the system preference and registers a new
     * listener, and otherwise sets the dark class exactly for `dark`. So a
     * listener is registered exactly when the mode is `system`, and never
     * more than one.
     */
    method ApplyTheme(mode: ThemeMode, systemPrefersDark: bool)
      requires Valid()
      modifies this
      ensures Valid()
      ensures hasListener == (mode == System)
      ensures subscriptions == (if mode == System then 1 else 0)
      ensures mode == System ==> dark == systemPrefersDark
      ensures mode != System ==> dark == (mode == Dark)
      ensures hasMedia == (old(hasMedia) || mode == System)
    {
      if hasListener && hasMedia {
        subscriptions := subscriptions - 1;
        hasListener := false;
      }
      if mode == System {
        hasMedia := true;
        dark := systemPrefersDark;
        hasListener := true;
        subscriptions := subscriptions + 1;
      } else {
        dark := mode == Dark;
      }
    }

    /**
     * `applyDefaults`, run when the settings store's module loads: the
     * `system` theme is applied, so a listener is registered and the dark
     * class follows the system preference.
     */
    method ApplyDefaults(systemPrefersDark: bool)
      requires Valid()
      modifies this
      ensures Valid() && hasMedia && hasListener && subscriptions == 1
      ensures dark == systemPrefersDark
    {
      ApplyTheme(System, systemPrefersDark);
    }

    /** The registered listener runs when the system preference changes: the dark class follows it. */
    method SystemPreferenceChanged(prefersDark: bool)
      requires Valid()
      modifies this`dark
      ensures hasListener ==> dark == prefersDark
      ensures !hasListener ==> dark == old(dark)
    {
      if hasListener {
        dark := prefersDark;
      }
    }
  }
}
