/**
 * The colour-mode state of src/components/ThemeProvider.tsx. The mode is
 * whatever string was persisted (the cast in the source checks nothing),
 * falling back to "light"; the persisted value is a field here.
 */
module Theme {
  import opened Values

  const Light: string := "light"
  const Dark: string := "dark"

  /** The mode, and the value kept under the `themeMode` key. */
  datatype ThemeState = ThemeState(mode: string, stored: Option<string>)

  /** The persisted value always follows the mode. */
  predicate Persisted(t: ThemeState) {
    t.stored == Some(t.mode)
  }

  /** `localStorage.getItem("themeMode") || "light"`. */
  function InitialMode(stored: Option<string>): (mode: string)
    ensures Present(stored) ==> mode == stored.value
    ensures !Present(stored) ==> mode == Light
    ensures mode != ""
  {
    if Present(stored) then stored.value else Light
  }

  /** The first render, followed by the effect that writes the mode back. */
  function Mount(stored: Option<string>): (t: ThemeState)
    ensures t.mode == InitialMode(stored) && Persisted(t)
  {
    ThemeState(InitialMode(stored), Some(InitialMode(stored)))
  }

  /** `prevMode === "light" ? "dark" : "light"`. */
  function Flip(mode: string): (next: string)
    ensures mode == Light ==> next == Dark
    ensures mode != Light ==> next == Light
  {
    if mode == Light then Dark else Light
  }

  /** `toggleTheme`: the new mode is set and persisted. */
  function ToggleTheme(t: ThemeState): (t': ThemeState)
    ensures t'.mode == Flip(t.mode)
    ensures Persisted(t')
  {
    var next := Flip(t.mode);
    ThemeState(next, Some(next))
  }

  /** Toggling twice returns to "light" or "dark"; any other persisted mode
      becomes "dark" instead. */
  lemma ToggleTwice(t: ThemeState)
    ensures t.mode == Light || t.mode == Dark ==> ToggleTheme(ToggleTheme(t)).mode == t.mode
    ensures t.mode != Light && t.mode != Dark ==> ToggleTheme(ToggleTheme(t)).mode == Dark
  {
  }

  /** The two palette entries the provider sets. */
  datatype Palette = Palette(background: string, text: string)

  /** `palette.background.default` and `palette.text.primary`: dark text on
      white in light mode, white text on near-black in any other mode. In
      every mode the text colour differs from the background. */
  function PaletteFor(mode: string): (p: Palette)
    ensures mode == Light ==> p == Palette("#ffffff", "#000000")
    ensures mode != Light ==> p == Palette("#121212", "#ffffff")
    ensures p.text != p.background
  {
    if mode == Light then Palette("#ffffff", "#000000") else Palette("#121212", "#ffffff")
  }

  /** Toggling between the two known modes swaps the palettes. */
  lemma ToggleSwapsPalette(t: ThemeState)
    requires t.mode == Light || t.mode == Dark
    ensures PaletteFor(ToggleTheme(t).mode) != PaletteFor(t.mode)
    ensures PaletteFor(ToggleTheme(ToggleTheme(t)).mode) == PaletteFor(t.mode)
  {
  }
}
