/** The colour theme of client/src/hooks/use-theme.tsx: `dark` or
    `light`, restored on mount from the saved `theme` entry or, failing
    that, from the system's dark-mode preference, and saved on every
    toggle. */
module Theme {
  import opened Common

  datatype Theme = Dark | Light

  /** The theme's string form, as stored and as used for the class name. */
  function Name(t: Theme): string
  {
    match t
    case Dark => "dark"
    case Light => "light"
  }

  /** The theme the mount effect chooses: a saved value of exactly "light"
      or "dark" is adopted; anything else (including no entry) falls back
      to the `prefers-color-scheme: dark` preference. */
  function FromSaved(saved: Option<string>, prefersDark: bool): Theme
  {
    if saved == Some("light") then Light
    else if saved == Some("dark") then Dark
    else if prefersDark then Dark else Light
  }

  /** The other theme. */
  function Flipped(t: Theme): (r: Theme)
    ensures r != t && Name(r) != Name(t)
  {
    if t == Dark then Light else Dark
  }

  /** A saved theme name wins over the preference; any other saved string
      counts as no entry at all, and with no entry the preference decides. */
  lemma InitialChoice(saved: Option<string>, prefersDark: bool)
    ensures (exists t :: saved == Some(Name(t))) ==> FromSaved(saved, prefersDark) == FromSaved(saved, !prefersDark)
    ensures (forall t :: saved != Some(Name(t))) ==> FromSaved(saved, prefersDark) == FromSaved(None, prefersDark)
    ensures FromSaved(None, prefersDark) == (if prefersDark then Dark else Light)
  {
    if saved != Some("light") && saved != Some("dark") {
      assert forall t :: saved != Some(Name(t));
    } else if saved == Some("light") {
      assert saved == Some(Name(Light));
    } else {
      assert saved == Some(Name(Dark));
    }
  }

  /** Toggling changes the theme, twice restores it, and the saved name of
      any theme is restored verbatim whatever the preference. */
  lemma ToggleAndRestore(t: Theme, prefersDark: bool)
    ensures Flipped(t) != t && Flipped(Flipped(t)) == t
    ensures FromSaved(Some(Name(t)), prefersDark) == t
  {
  }

  class ThemeHook {
    var theme: Theme
    /** The browser-storage entry `theme`. */
    var saved: Option<string>

    /** First render: `dark` until the mount effect runs. */
    constructor (saved: Option<string>)
      ensures theme == Dark && this.saved == saved
    {
      theme := Dark;
      this.saved := saved;
    }

    /** The mount effect, given the system preference. */
    method Initialize(prefersDark: bool)
      modifies this`theme
      ensures theme == FromSaved(saved, prefersDark)
    {
      if saved == Some("light") {
        theme := Light;
      } else if saved == Some("dark") {
        theme := Dark;
      } else {
        theme := if prefersDark then Dark else Light;
      }
    }

    /** `toggleTheme`: flip and save. */
    method ToggleTheme()
      modifies this
      ensures theme == Flipped(old(theme)) && saved == Some(Name(theme))
    {
      var newTheme := if theme == Dark then Light else Dark;
      theme := newTheme;
      saved := Some(Name(newTheme));
    }
  }
}
