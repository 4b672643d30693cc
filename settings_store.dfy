/**
 * The settings store of src/renderer/src/store/settings.ts: `themeMode` and
 * `fontScale`, the single pending debounced write, the stored `settings`
 * entry, and the theme state the store drives through `applyTheme`.
 */
module SettingsStore {
  import opened Wrappers
  import opened SettingsLib

  /** What `debounceSave` / `repository.persist` receive: the one field a setter changed. */
  datatype Patch = Patch(themeMode: Option<ThemeMode>, fontScale: Option<real>)

  /** `repository.hydrate`: with the API present, the normalised stored object (defaults when nothing is stored). */
  function ReadSettings(api: bool, stored: Option<RawSettings>): (r: Option<Settings>)
    ensures r.Some? <==> api
    ensures stored.None? && api ==> r == Some(Settings(System, 1.0))
    ensures stored.Some? && api ==> r == Some(NormalizeSettings(stored.value))
    ensures r.Some? ==> r.value.fontScale > 0.0
  {
    if api then Some(NormalizeSettings(stored.GetOr(RawSettings(None, None)))) else None
  }

  /**
   * `repository.persist` as written: both fields are always written, an
   * absent one as its default (`'system'`, `1.0`), whatever was stored.
   */
  function PersistAsWritten(stored: Option<RawSettings>, p: Patch): (r: RawSettings)
    ensures r.themeMode == Some(ModeName(p.themeMode.GetOr(System)))
    ensures r.fontScale == Some(p.fontScale.GetOr(1.0))
  {
    RawSettings(Some(ModeName(p.themeMode.GetOr(System))), Some(p.fontScale.GetOr(1.0)))
  }

  /**
   * Whatever was stored before, a patch without a theme is read back as the
   * `system` theme and a patch without a scale as scale 1.0.
   */
  lemma PersistAsWrittenResetsAbsent(stored: Option<RawSettings>, p: Patch)
    ensures p.themeMode.None? ==> ReadSettings(true, Some(PersistAsWritten(stored, p))).value.themeMode == System
    ensures p.fontScale.None? ==> ReadSettings(true, Some(PersistAsWritten(stored, p))).value.fontScale == 1.0
  {
  }

  /**
   * The input that shows it: the dark theme is saved, then the font scale
   * is set to 1.25 and saved; what is read back at the next start is the
   * `system` theme with scale 1.25, not the dark theme.
   */
  lemma PersistAsWrittenLosesTheme()
    ensures var first := PersistAsWritten(None, Patch(Some(Dark), None));
            var second := PersistAsWritten(Some(first), Patch(None, Some(1.25)));
            ReadSettings(true, Some(first)) == Some(Settings(Dark, 1.0)) &&
            ReadSettings(true, Some(second)) == Some(Settings(System, 1.25))
  {
    var first := PersistAsWritten(None, Patch(Some(Dark), None));
    assert first.themeMode == Some(ModeName(Dark));
  }

  /**
   * `repository.persist` as its comment means it ("only persist the fields
   * passed in"): the patch's fields overwrite the stored object, the other
   * stored field is kept.
   */
  function PersistMerged(stored: Option<RawSettings>, p: Patch): (r: RawSettings)
    ensures p.themeMode.Some? ==> r.themeMode == Some(ModeName(p.themeMode.value))
    ensures p.fontScale.Some? ==> r.fontScale == p.fontScale
    ensures p.themeMode.None? ==> r.themeMode == stored.GetOr(RawSettings(None, None)).themeMode
    ensures p.fontScale.None? ==> r.fontScale == stored.GetOr(RawSettings(None, None)).fontScale
  {
    var base := stored.GetOr(RawSettings(None, None));
    RawSettings(
      if p.themeMode.Some? then Some(ModeName(p.themeMode.value)) else base.themeMode,
      if p.fontScale.Some? then p.fontScale else base.fontScale)
  }

  /**
   * Reading back a merged write: each field in the patch comes back as
   * written (the scale normalised), each field not in it as it was read
   * before.
   */
  lemma PersistMergedReadBack(stored: Option<RawSettings>, p: Patch)
    ensures var before := ReadSettings(true, stored).value;
            var after := ReadSettings(true, Some(PersistMerged(stored, p))).value;
            && after.themeMode == (if p.themeMode.Some? then p.themeMode.value else before.themeMode)
            && after.fontScale == (if p.fontScale.Some? then NormalizeFontScale(p.fontScale) else before.fontScale)
  {
    if p.themeMode.Some? {
      assert PersistMerged(stored, p).themeMode == Some(ModeName(p.themeMode.value));
    }
  }

  class Store {
    var themeMode: ThemeMode
    var fontScale: real
    /** The payload of the one scheduled debounced write, if a timer is pending. */
    var pending: Option<Patch>
    /** The `settings` entry of the key-value store. */
    var stored: Option<RawSettings>
    /** Whether `window.api.storeGet` / `storeSet` exist and succeed. */
    const api: bool
    /** The document and listener state `applyTheme` drives. */
    const theme: ThemeHost

    /** The initial state: the `system` theme at scale 1.0, nothing scheduled. */
    constructor (api: bool, stored: Option<RawSettings>, theme: ThemeHost)
      ensures themeMode == System && fontScale == 1.0 && pending == None
      ensures this.api == api && this.stored == stored && this.theme == theme
    {
      themeMode, fontScale, pending := System, 1.0, None;
      this.api, this.stored, this.theme := api, stored, theme;
    }

    /** The stored object reads back as the settings in memory. */
    ghost predicate Saved()
      reads this
    {
      ReadSettings(api, stored) == Some(Settings(themeMode, NormalizeFontScale(Some(fontScale))))
    }

    /** `debounceSave`: the new patch replaces whatever write was pending; nothing is merged. */
    method DebounceSave(p: Patch)
      modifies this`pending
      ensures pending == Some(p)
    {
      pending := Some(p);
    }

    /**
     * The debounce timer fires: the last scheduled patch, and only it, is
     * persisted by `repository.persist` as written, so the field the patch
     * lacks is stored as its default.
     */
    method Flush()
      modifies this`stored, this`pending
      ensures pending == None
      ensures old(pending).None? || !api ==> stored == old(stored)
      ensures old(pending).Some? && api ==> stored == Some(PersistAsWritten(old(stored), old(pending).value))
    {
      if pending.Some? {
        if api {
          stored := Some(PersistAsWritten(stored, pending.value));
        }
        pending := None;
      }
    }

    /** The timer firing with the corrected persist: the patch is merged into the stored object. */
    method FlushMerged()
      modifies this`stored, this`pending
      ensures pending == None
      ensures old(pending).None? || !api ==> stored == old(stored)
      ensures old(pending).Some? && api ==> stored == Some(PersistMerged(old(stored), old(pending).value))
    {
      if pending.Some? {
        if api {
          stored := Some(PersistMerged(stored, pending.value));
        }
        pending := None;
      }
    }

    /**
     * `setThemeMode`: nothing at all happens when the mode is unchanged.
     * Otherwise the mode is set, the theme is applied at once, the font
     * scale is untouched and a save of the mode alone is scheduled.
     */
    method SetThemeMode(m: ThemeMode, systemPrefersDark: bool)
      requires theme.Valid()
      modifies this, theme
      ensures old(themeMode) == m ==> unchanged(this) && unchanged(theme)
      ensures old(themeMode) != m ==>
                && themeMode == m && fontScale == old(fontScale)
                && pending == Some(Patch(Some(m), None))
                && stored == old(stored)
                && theme.hasListener == (m == System)
                && theme.subscriptions == (if m == System then 1 else 0)
                && theme.dark == (if m == System then systemPrefersDark else m == Dark)
      ensures theme.Valid()
    {
      if themeMode == m {
        return;
      }
      themeMode := m;
      theme.ApplyTheme(m, systemPrefersDark);
      DebounceSave(Patch(Some(m), None));
    }

    /**
     * `setFontScale`: nothing happens when the scale is unchanged; otherwise
     * the scale is set, the mode is untouched and a save of the scale alone
     * is scheduled.
     */
    method SetFontScale(v: real)
      modifies this
      ensures old(fontScale) == v ==> unchanged(this)
      ensures old(fontScale) != v ==>
                && fontScale == v && themeMode == old(themeMode)
                && pending == Some(Patch(None, Some(v)))
                && stored == old(stored)
    {
      if fontScale == v {
        return;
      }
      fontScale := v;
      DebounceSave(Patch(None, Some(v)));
    }

    /**
     * The startup hydrate assignment: with the API present, both fields
     * become the normalised stored values and the theme is applied; without
     * it, the state is left as it is.
     */
    method Hydrate(systemPrefersDark: bool)
      requires theme.Valid()
      modifies this, theme
      ensures ReadSettings(api, stored).Some? ==>
                && Settings(themeMode, fontScale) == ReadSettings(api, stored).value
                && Saved()
                && theme.hasListener == (themeMode == System)
                && theme.dark == (if themeMode == System then systemPrefersDark else themeMode == Dark)
      ensures ReadSettings(api, stored).None? ==> unchanged(this) && unchanged(theme)
      ensures pending == old(pending) && stored == old(stored)
      ensures theme.Valid()
    {
      var data := ReadSettings(api, stored);
      if data.Some? {
        themeMode, fontScale := data.value.themeMode, data.value.fontScale;
        theme.ApplyTheme(data.value.themeMode, systemPrefersDark);
      }
    }
  }

  /**
   * Module load and the startup hydrate: the store starts at `system` and
   * 1.0, `applyDefaults` applies the `system` theme, and then, with the
   * storage API present, the normalised stored settings are installed and
   * applied; without it the defaults stay, the system listener included.
   */
  method Startup(api: bool, stored: Option<RawSettings>, systemPrefersDark: bool) returns (s: Store)
    ensures fresh(s) && fresh(s.theme) && s.theme.Valid()
    ensures s.api == api && s.stored == stored && s.pending == None
    ensures !api ==>
              && s.themeMode == System && s.fontScale == 1.0
              && s.theme.hasListener && s.theme.dark == systemPrefersDark
    ensures api ==>
              && Settings(s.themeMode, s.fontScale) == NormalizeSettings(stored.GetOr(RawSettings(None, None)))
              && s.theme.hasListener == (s.themeMode == System)
              && s.theme.dark == (if s.themeMode == System then systemPrefersDark else s.themeMode == Dark)
  {
    var host := new ThemeHost();
    host.ApplyDefaults(systemPrefersDark);
    s := new Store(api, stored, host);
    s.Hydrate(systemPrefersDark);
  }

  /**
   * Two edits saved one after the other, each in its own debounce window,
   * with the persist as written: the second save resets the theme, so the
   * next start reads back the `system` theme with the new scale, although
   * the store shows the new theme.
   */
  method ThemeThenScaleSavedSeparately(s: Store, m: ThemeMode, v: real, systemPrefersDark: bool)
    requires s.api && s.theme.Valid() && s.themeMode != m && s.fontScale != v
    modifies s, s.theme
    ensures s.themeMode == m && s.fontScale == v
    ensures ReadSettings(s.api, s.stored) == Some(Settings(System, NormalizeFontScale(Some(v))))
  {
    s.SetThemeMode(m, systemPrefersDark);
    s.Flush();
    s.SetFontScale(v);
    s.Flush();
  }

  /** With the corrected persist, a change of theme, once its save has fired, is what the next start reads back; the scale is kept. */
  method SetThemeModeAndSave(s: Store, m: ThemeMode, systemPrefersDark: bool)
    requires s.theme.Valid() && s.Saved() && s.pending == None
    modifies s, s.theme
    ensures s.themeMode == m && s.Saved()
  {
    s.SetThemeMode(m, systemPrefersDark);
    s.FlushMerged();
    PersistMergedReadBack(old(s.stored), Patch(Some(m), None));
  }

  /** With the corrected persist, a change of font scale, once its save has fired, is what the next start reads back; the theme is kept. */
  method SetFontScaleAndSave(s: Store, v: real)
    requires s.Saved() && s.pending == None
    modifies s
    ensures s.fontScale == v && s.Saved()
  {
    s.SetFontScale(v);
    s.FlushMerged();
    PersistMergedReadBack(old(s.stored), Patch(None, Some(v)));
  }

  /**
   * Two edits inside one debounce window: only the second patch is written,
   * so even with the corrected persist the theme change never reaches
   * storage, although the store shows it.
   */
  method ThemeThenScaleInOneWindow(s: Store, m: ThemeMode, v: real, systemPrefersDark: bool)
    requires s.api && s.theme.Valid() && s.Saved() && s.themeMode != m && s.fontScale != v
    modifies s, s.theme
    ensures s.themeMode == m && s.fontScale == v
    ensures ReadSettings(s.api, s.stored).value.themeMode == old(s.themeMode)
  {
    s.SetThemeMode(m, systemPrefersDark);
    s.SetFontScale(v);
    s.FlushMerged();
    PersistMergedReadBack(old(s.stored), Patch(None, Some(v)));
  }
}
