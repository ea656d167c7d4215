// The light/dark theme provider: the initial mode, the toggle, the saved
// preference and the colours that depend on the mode.

module Theme {
  import opened Wrappers

  const Light := "light"
  const Dark := "dark"
  const StorageKey := "theme"

  /** The palette's mode is a string; a saved value is taken as is, so
      values other than the two modes can occur. */
  predicate IsValidMode(mode: string) {
    mode == Light || mode == Dark
  }

  /** The lazy initial state: a non-empty saved value wins, then the
      system's dark preference (when `matchMedia` exists), then light. */
  function InitialMode(saved: Option<string>, hasMatchMedia: bool, prefersDark: bool): (m: string)
    ensures saved.Some? && saved.value != "" ==> m == saved.value
    ensures (saved.None? || saved.value == "") ==> IsValidMode(m)
    ensures (saved.None? || saved.value == "") ==> (m == Dark <==> hasMatchMedia && prefersDark)
  {
    if saved.Some? && saved.value != "" then saved.value
    else if hasMatchMedia && prefersDark then Dark
    else Light
  }

  /** `toggleTheme`'s updater: light becomes dark, anything else light. */
  function Toggle(mode: string): (r: string)
    ensures IsValidMode(r)
    ensures r != mode || !IsValidMode(mode)
  {
    if mode == Light then Dark else Light
  }

  /** Toggling twice restores exactly the two valid modes; any other saved
      value is replaced by "light" on the first toggle. */
  lemma ToggleTwiceIff(mode: string)
    ensures Toggle(Toggle(mode)) == mode <==> IsValidMode(mode)
    ensures !IsValidMode(mode) ==> Toggle(mode) == Light
  {
  }

  /** The mode-dependent colours of the theme. */
  datatype Palette = Palette(
    primary: string,
    secondary: string,
    backgroundDefault: string,
    backgroundPaper: string,
    textPrimary: string,
    textSecondary: string,
    card: string,
    cardHover: string,
    paper: string,
    appBar: string)

  /** Each colour takes its light value for "light" and its dark value for
      every other mode. */
  function PaletteFor(mode: string): (p: Palette)
    ensures mode == Light ==> p.primary == "#1976d2" && p.backgroundDefault == "#f5f5f5"
    ensures mode != Light ==> p.primary == "#90caf9" && p.backgroundDefault == "#121212"
  {
    var light := mode == Light;
    Palette(
      if light then "#1976d2" else "#90caf9",
      if light then "#dc004e" else "#f48fb1",
      if light then "#f5f5f5" else "#121212",
      if light then "#ffffff" else "#1e1e1e",
      if light then "#000000" else "#ffffff",
      if light then "#666666" else "#aaaaaa",
      if light then "#ffffff" else "#2d2d2d",
      if light then "#fafafa" else "#353535",
      if light then "#ffffff" else "#2d2d2d",
      if light then "#1976d2" else "#1e1e1e")
  }

  /** The colours depend only on whether the mode is "light": an unknown
      saved value looks like dark mode. */
  lemma PaletteDependsOnLightOnly(a: string, b: string)
    requires (a == Light) == (b == Light)
    ensures PaletteFor(a) == PaletteFor(b)
  {
  }

  /** A toggle changes every single colour. */
  lemma ToggleChangesEveryColour(mode: string)
    ensures var p, q := PaletteFor(mode), PaletteFor(Toggle(mode));
      p.primary != q.primary && p.secondary != q.secondary
      && p.backgroundDefault != q.backgroundDefault && p.backgroundPaper != q.backgroundPaper
      && p.textPrimary != q.textPrimary && p.textSecondary != q.textSecondary
      && p.card != q.card && p.cardHover != q.cardHover && p.paper != q.paper && p.appBar != q.appBar
  {
  }

  /** What the context hands to its consumers. */
  datatype ThemeContextValue = ThemeContextValue(mode: string)

  /** `useTheme`: the context value, or the error thrown outside a provider. */
  function UseTheme(context: Option<ThemeContextValue>): (r: Result<ThemeContextValue, string>)
    ensures context.Some? <==> r.Success?
    ensures r.Success? ==> r.value == context.value
    ensures r.Failure? ==> r.error == "useTheme must be used within a ThemeProvider"
  {
    match context
    case None => Failure("useTheme must be used within a ThemeProvider")
    case Some(c) => Success(c)
  }

  /** The provider's state together with the browser's storage, which the
      effect keeps in step with the mode. */
  class ThemeProvider {
    var mode: string
    var storage: map<string, string>

    /** The saved preference always equals the current mode. */
    ghost predicate Persisted()
      reads this
    {
      StorageKey in storage && storage[StorageKey] == mode
    }

    /** Mounting: the initial mode is chosen from the stored value and the
        system preference, then the effect stores it. */
    constructor (storage: map<string, string>, hasMatchMedia: bool, prefersDark: bool)
      ensures mode == InitialMode(if StorageKey in storage then Some(storage[StorageKey]) else None,
                                  hasMatchMedia, prefersDark)
      ensures this.storage == storage[StorageKey := mode]
      ensures Persisted()
    {
      var saved := if StorageKey in storage then Some(storage[StorageKey]) else None;
      mode := InitialMode(saved, hasMatchMedia, prefersDark);
      this.storage := storage[StorageKey := InitialMode(saved, hasMatchMedia, prefersDark)];
    }

    function CurrentPalette(): Palette
      reads this
    {
      PaletteFor(mode)
    }

    /** `toggleTheme` followed by the storing effect. */
    method ToggleTheme()
      requires Persisted()
      modifies this
      ensures mode == Toggle(old(mode))
      ensures storage == old(storage)[StorageKey := mode]
      ensures Persisted()
    {
      mode := Toggle(mode);
      storage := storage[StorageKey := mode];
    }
  }
}
