/**
 * The app's theme store: the chosen theme mode (follow the device, light or
 * dark), the colour scheme in use, and whether the saved choice is still
 * being loaded. The choice is persisted under one storage key.
 */
module ThemeStore {
  import opened Common

  datatype ThemeMode = SystemMode | LightMode | DarkMode

  datatype ColorScheme = Light | Dark

  /** The value written to storage for a mode. */
  function ModeName(m: ThemeMode): string
  {
    match m
    case SystemMode => "system"
    case LightMode => "light"
    case DarkMode => "dark"
  }

  /** A stored value is taken only when it is one of the three mode names. */
  function ParseMode(s: string): (r: Option<ThemeMode>)
    ensures r.Some? <==> s in {"system", "light", "dark"}
    ensures r.Some? ==> ModeName(r.value) == s
  {
    if s == "system" then Some(SystemMode)
    else if s == "light" then Some(LightMode)
    else if s == "dark" then Some(DarkMode)
    else None
  }

  /** What has been read from storage reads back as the mode that was written. */
  lemma ParseModeName(m: ThemeMode)
    ensures ParseMode(ModeName(m)) == Some(m)
  {
  }

  /** The scheme a light or dark mode fixes; following the device fixes none. */
  function FixedScheme(m: ThemeMode): (r: Option<ColorScheme>)
    ensures r.None? <==> m == SystemMode
  {
    match m
    case SystemMode => None
    case LightMode => Some(Light)
    case DarkMode => Some(Dark)
  }

  /** The store's three fields as a value. */
  datatype Theme = Theme(themeMode: ThemeMode, colorScheme: ColorScheme, isLoading: bool)

  /** A light or dark mode is the scheme in use. */
  predicate Consistent(t: Theme)
  {
    FixedScheme(t.themeMode).Some? ==> t.colorScheme == FixedScheme(t.themeMode).value
  }

  /** The store starts following the device, light, and loading. */
  const Initial := Theme(SystemMode, Light, true)

  /** setThemeMode: the mode is taken, and a light or dark mode becomes the scheme; storage does not take part. */
  function WithMode(t: Theme, mode: ThemeMode): (r: Theme)
    ensures r.themeMode == mode && r.isLoading == t.isLoading
    ensures mode == SystemMode ==> r.colorScheme == t.colorScheme
    ensures Consistent(r)
  {
    var scheme := FixedScheme(mode);
    Theme(mode, if scheme.Some? then scheme.value else t.colorScheme, t.isLoading)
  }

  /** updateColorScheme: the device's scheme is followed only while the mode is "system". */
  function WithDeviceScheme(t: Theme, scheme: ColorScheme): (r: Theme)
    ensures r.themeMode == t.themeMode && r.isLoading == t.isLoading
    ensures t.themeMode == SystemMode ==> r.colorScheme == scheme
    ensures t.themeMode != SystemMode ==> r == t
    ensures Consistent(t) ==> Consistent(r)
  {
    if t.themeMode == SystemMode then Theme(t.themeMode, scheme, t.isLoading) else t
  }

  /**
   * loadTheme: a stored mode name is applied as setThemeMode would apply it;
   * anything else, nothing stored, or a failed read (both given as None)
   * leaves the mode and scheme alone. Loading is over either way.
   */
  function Loaded(t: Theme, saved: Option<string>): (r: Theme)
    ensures !r.isLoading
    ensures saved.Some? && ParseMode(saved.value).Some? ==>
      r == Theme(ParseMode(saved.value).value, WithMode(t, ParseMode(saved.value).value).colorScheme, false)
    ensures (saved.None? || ParseMode(saved.value).None?) ==>
      r.themeMode == t.themeMode && r.colorScheme == t.colorScheme
    ensures Consistent(t) ==> Consistent(r)
  {
    var mode := if saved.Some? then ParseMode(saved.value) else None;
    var u := if mode.Some? then WithMode(t, mode.value) else t;
    Theme(u.themeMode, u.colorScheme, false)
  }

  /** A mode saved by one session is the mode the next session loads. */
  lemma SavedModeRestored(m: ThemeMode, device: ColorScheme)
    ensures var t := Loaded(WithDeviceScheme(Initial, device), Some(ModeName(m)));
      t.themeMode == m && !t.isLoading && Consistent(t)
  {
    ParseModeName(m);
  }

  /** Setting the mode twice is setting it once; the last mode wins. */
  lemma WithModeLastWins(t: Theme, a: ThemeMode, b: ThemeMode)
    ensures WithMode(WithMode(t, a), b).themeMode == b
    ensures b != SystemMode ==> WithMode(WithMode(t, a), b) == WithMode(t, b)
  {
  }

  /** useThemeModeLabel: the names shown for the modes, told apart. */
  function ModeLabel(m: ThemeMode): (r: string)
    ensures r in {"System Default", "Light", "Dark"}
  {
    match m
    case SystemMode => "System Default"
    case LightMode => "Light"
    case DarkMode => "Dark"
  }

  lemma ModeLabelInjective(a: ThemeMode, b: ThemeMode)
    requires ModeLabel(a) == ModeLabel(b)
    ensures a == b
  {
    assert "System Default" != "Light" && "System Default" != "Dark" && "Light" != "Dark" by {
      assert "System Default"[0] != "Light"[0] && "System Default"[0] != "Dark"[0] && "Light"[0] != "Dark"[0];
    }
  }

  /** Where the mode is saved: the value under the theme's storage key, if any. */
  class ThemeStorage {
    var saved: Option<string>

    constructor(saved: Option<string>)
      ensures this.saved == saved
    {
      this.saved := saved;
    }
  }

  class ThemeStore {
    var themeMode: ThemeMode
    var colorScheme: ColorScheme
    var isLoading: bool

    function State(): Theme
      reads this
    {
      Theme(themeMode, colorScheme, isLoading)
    }

    constructor()
      ensures State() == Initial && Consistent(State())
    {
      themeMode := SystemMode;
      colorScheme := Light;
      isLoading := true;
    }

    /**
     * setThemeMode: take the mode, try to save it, and fix the scheme of a
     * light or dark mode. A failed write (`writeOk` false) is logged and
     * ignored, so the store's state does not depend on it.
     */
    method SetThemeMode(mode: ThemeMode, storage: ThemeStorage, writeOk: bool)
      modifies this, storage
      ensures State() == WithMode(old(State()), mode)
      ensures storage.saved == if writeOk then Some(ModeName(mode)) else old(storage.saved)
    {
      themeMode := mode;
      if writeOk {
        storage.saved := Some(ModeName(mode));
      }
      if mode != SystemMode {
        colorScheme := if mode == LightMode then Light else Dark;
      }
    }

    /** updateColorScheme: follow the device only while the mode is "system". */
    method UpdateColorScheme(scheme: ColorScheme)
      modifies this
      ensures State() == WithDeviceScheme(old(State()), scheme)
    {
      if themeMode == SystemMode {
        colorScheme := scheme;
      }
    }

    /** loadTheme: a read that fails (`readOk` false) is logged; loading ends either way. */
    method LoadTheme(storage: ThemeStorage, readOk: bool)
      modifies this
      ensures State() == Loaded(old(State()), if readOk then storage.saved else None)
    {
      if readOk && storage.saved.Some? {
        var mode := ParseMode(storage.saved.value);
        if mode.Some? {
          themeMode := mode.value;
          if mode.value != SystemMode {
            colorScheme := if mode.value == LightMode then Light else Dark;
          }
        }
      }
      isLoading := false;
    }
  }
}
